/** What makes a managed path (src/doll/workspace_files.py), said of its parts and characters. */
module PathMeaning {
  import opened Texts
  import opened TextMeaning
  import opened ManagedPaths

  // ----- device names -------------------------------------------------------------------------

  /** The letter, in either case. */
  predicate SameLetter(c: char, upper: char)
  {
    c == upper || c as int == upper as int + 32
  }

  predicate Reads(s: string, word: string)
  {
    |s| == |word| && forall i :: 0 <= i < |word| ==> SameLetter(s[i], word[i])
  }

  /** A device name in whatever case: CON, PRN, AUX, NUL, or COM or LPT with a digit from 1 to 9. */
  predicate Device(s: string)
  {
    || Reads(s, "CON") || Reads(s, "PRN") || Reads(s, "AUX") || Reads(s, "NUL")
    || (|s| == 4 && (Reads(s[..3], "COM") || Reads(s[..3], "LPT")) && '1' <= s[3] <= '9')
  }

  function UpperChar(c: char): char
  {
    if 'a' <= c <= 'z' then (c as int - 32) as char else c
  }

  lemma {:induction false} UpperAt(s: string)
    ensures |Upper(s)| == |s| && forall i :: 0 <= i < |s| ==> Upper(s)[i] == UpperChar(s[i])
  {
    if s != [] { UpperAt(s[1..]); }
  }

  lemma UpperReads(s: string, word: string)
    requires forall i :: 0 <= i < |word| ==> 'A' <= word[i] <= 'Z'
    ensures Upper(s) == word <==> Reads(s, word)
  {
    UpperAt(s);
    if Upper(s) == word {
      forall i | 0 <= i < |word| ensures SameLetter(s[i], word[i]) { assert Upper(s)[i] == UpperChar(s[i]); }
    }
    if Reads(s, word) {
      forall i | 0 <= i < |word| ensures Upper(s)[i] == word[i] { assert SameLetter(s[i], word[i]); }
    }
  }

  lemma UpperPrefix(s: string)
    requires |s| == 4
    ensures |Upper(s)| == 4 && Upper(s)[..3] == Upper(s[..3])
    ensures '1' <= Upper(s)[3] <= '9' <==> '1' <= s[3] <= '9'
  {
    UpperAt(s);
    UpperAt(s[..3]);
  }

  /** The four-letter device names, by their parts. */
  lemma NumberedNames(n: string)
    requires |n| == 4
    ensures ReservedName(n) <==> (n[..3] == "COM" || n[..3] == "LPT") && '1' <= n[3] <= '9'
  {
    assert n == n[..3] + [n[3]];
    if ReservedName(n) {
      assert n[..3] == "COM" || n[..3] == "LPT";
    }
    if (n[..3] == "COM" || n[..3] == "LPT") && '1' <= n[3] <= '9' {
      var d := n[3];
      assert d == '1' ==> n == "COM1" || n == "LPT1";
      assert d == '2' ==> n == "COM2" || n == "LPT2";
      assert d == '3' ==> n == "COM3" || n == "LPT3";
      assert d == '4' ==> n == "COM4" || n == "LPT4";
      assert d == '5' ==> n == "COM5" || n == "LPT5";
      assert d == '6' ==> n == "COM6" || n == "LPT6";
      assert d == '7' ==> n == "COM7" || n == "LPT7";
      assert d == '8' ==> n == "COM8" || n == "LPT8";
      assert d == '9' ==> n == "COM9" || n == "LPT9";
    }
  }

  lemma ReservedIff(s: string)
    ensures ReservedName(Upper(s)) <==> Device(s)
  {
    hide Upper, Reads;
    UpperLength(s);
    if |s| == 3 {
      UpperReads(s, "CON");
      UpperReads(s, "PRN");
      UpperReads(s, "AUX");
      UpperReads(s, "NUL");
    } else if |s| == 4 {
      UpperPrefix(s);
      NumberedNames(Upper(s));
      UpperReads(s[..3], "COM");
      UpperReads(s[..3], "LPT");
      FourIsNotThree(s);
    } else {
      FourIsNotThree(s);
    }
  }

  lemma UpperLength(s: string)
    ensures |Upper(s)| == |s|
  {
    UpperAt(s);
  }

  lemma FourIsNotThree(s: string)
    requires |s| != 3
    ensures !Reads(s, "CON") && !Reads(s, "PRN") && !Reads(s, "AUX") && !Reads(s, "NUL")
  {
  }

  // ----- parts --------------------------------------------------------------------------------------

  /** What comes before the first point, or everything. */
  predicate Stem(part: string, stem: string)
  {
    stem <= part && '.' !in stem && (stem == part || part[|stem|] == '.')
  }

  lemma {:induction false} StemIs(part: string)
    ensures Stem(part, BeforeDot(part)) && BeforeDot(Upper(part)) == Upper(BeforeDot(part))
  {
    if part != [] {
      StemIs(part[1..]);
      var stem := BeforeDot(part);
      if part[0] != '.' {
        assert stem == [part[0]] + BeforeDot(part[1..]) && part == [part[0]] + part[1..];
        assert Upper(part)[1..] == Upper(part[1..]) && Upper(stem)[1..] == Upper(stem[1..]);
      }
    }
  }

  lemma StemUnique(part: string, a: string, b: string)
    requires Stem(part, a) && Stem(part, b)
    ensures a == b
  {
    assert forall i :: 0 <= i < |a| ==> a[i] == part[i] && part[i] != '.';
    assert forall i :: 0 <= i < |b| ==> b[i] == part[i] && part[i] != '.';
    assert |a| == |b|;
  }

  /** A character that a part may hold. */
  predicate PartChar(c: char)
  {
    && c as int >= 32 && c != '/' && c != '\\'
    && c != '<' && c != '>' && c != ':' && c != '"' && c != '|' && c != '?' && c != '*'
  }

  /** A part: 1 to 120 such characters, neither starting nor ending in white space, not ending in a
      point, not a device name with or without an extension, and no temporary name. */
  ghost predicate GoodPart(part: string)
  {
    && 1 <= |part| <= 120 && (forall i :: 0 <= i < |part| ==> PartChar(part[i]))
    && !IsSpace(part[0]) && !IsSpace(part[|part| - 1]) && part[|part| - 1] != '.'
    && (forall stem :: Stem(part, stem) ==> !Device(stem))
    && !(".doll-tmp-" <= part)
  }

  lemma DeviceStem(part: string)
    ensures ReservedName(BeforeDot(Upper(part))) <==> exists stem :: Stem(part, stem) && Device(stem)
  {
    hide Device, Upper, BeforeDot, ReservedName, Stem;
    StemIs(part);
    ReservedIff(BeforeDot(part));
    if stem :| Stem(part, stem) && Device(stem) { StemUnique(part, stem, BeforeDot(part)); }
  }

  lemma StripFixed(part: string)
    requires part != []
    ensures part == Strip(part) <==> !IsSpace(part[0]) && !IsSpace(part[|part| - 1])
  {
    hide IsSpace;
    if !IsSpace(part[0]) && !IsSpace(part[|part| - 1]) { StripKeeps(part); }
  }

  lemma GoodPartIff(part: string)
    requires '/' !in part && '\\' !in part
    ensures (part != "" && part != "." && part != ".." && ValidComponent(part)) <==> GoodPart(part)
  {
    hide IsSpace, Strip, Device, Upper, BeforeDot, ReservedName, Stem;
    DeviceStem(part);
    if part != [] { StripFixed(part); }
    assert part == "." ==> part[|part| - 1] == '.';
    assert part == ".." ==> part[|part| - 1] == '.';
    forall i | 0 <= i < |part| ensures part[i] in part {}
    forall c: char ensures c !in "<>:\"|?*" <==>
      c != '<' && c != '>' && c != ':' && c != '"' && c != '|' && c != '?' && c != '*' {}
  }

  // ----- whole paths ------------------------------------------------------------------------------------

  lemma {:induction false} PartsHold(s: string, c: char)
    requires c != '/'
    ensures c in s <==> exists part :: part in Split(s) && c in part
  {
    hide Split;
    if s == [] {
      EmptySplit();
    } else {
      PartsHold(s[1..], c);
      SplitStep(s);
      var rest := Split(s[1..]);
      assert s == [s[0]] + s[1..];
      if s[0] == '/' {
        assert forall part :: part in Split(s) <==> part == "" || part in rest;
      } else {
        var first := [s[0]] + rest[0];
        assert rest == [rest[0]] + rest[1..];
        assert forall part :: part in Split(s) <==> part == first || part in rest[1..];
        assert forall part :: part in rest <==> part == rest[0] || part in rest[1..];
        assert c in first <==> c == s[0] || c in rest[0];
      }
    }
  }

  /** A managed path is good parts with slashes between them, at most 512 characters in all, the
      first part not a drive. */
  lemma ManagedPathIff(s: string)
    ensures ValidManagedPath(s) <==>
      |s| <= 512 && Joined(Split(s)) == s && forall part :: part in Split(s) ==> GoodPart(part)
  {
    hide ValidComponent, GoodPart, Split, HasDrive;
    SplitJoined(s);
    SplitParts(s);
    PartsHold(s, '\\');
    PartsHold(s, '\0');
    var parts := Split(s);
    if (forall part :: part in parts ==> GoodPart(part)) || '\\' !in s {
      forall i | 0 <= i < |parts|
        ensures (parts[i] != "" && parts[i] != "." && parts[i] != ".." && ValidComponent(parts[i]))
          <==> GoodPart(parts[i])
      {
        assert parts[i] in parts;
        if GoodPart(parts[i]) { GoodChars(parts[i]); }
        GoodPartIff(parts[i]);
      }
    }
    if forall part :: part in parts ==> GoodPart(part) {
      forall part | part in parts ensures '\\' !in part && '\0' !in part { GoodChars(part); }
      assert parts[0] in parts;
      GoodStart(s);
    }
  }

  lemma GoodChars(part: string)
    requires GoodPart(part)
    ensures '\\' !in part && '\0' !in part && '/' !in part && ':' !in part && part != ""
  {
    hide Device, Stem, IsSpace;
  }

  /** A path of good parts starts neither with a slash nor with a drive. */
  lemma GoodStart(s: string)
    requires GoodPart(Split(s)[0])
    requires forall part :: part in Split(s) ==> GoodPart(part)
    ensures s != [] && s[0] != '/' && !HasDrive(s)
  {
    hide GoodPart, Split;
    SplitJoined(s);
    PartsHold(s, ':');
    forall part | part in Split(s) ensures ':' !in part { GoodChars(part); }
    if s == [] {
      EmptySplit();
      GoodChars(Split(s)[0]);
    } else {
      SplitStep(s);
      GoodChars(Split(s)[0]);
      assert HasDrive(s) ==> ':' in s;
    }
  }

  /** A member name lies below the archive root, in plain printable parts. */
  lemma MemberNameIff(s: string)
    ensures ValidMemberName(s) <==>
      && Joined(Split(s)) == s && Split(s)[0] == "doll-backup"
      && (forall part :: part in Split(s) ==> part != "" && part != "." && part != "..")
      && forall i :: 0 <= i < |s| ==> s[i] as int >= 32 && s[i] != '\\'
  {
    hide Split;
    SplitJoined(s);
    var parts := Split(s);
    forall i | 0 <= i < |parts| ensures parts[i] in parts {}
    forall i | 0 <= i < |s| ensures s[i] in s {}
    if parts[0] == "doll-backup" { RootStarts(s); }
  }

  lemma RootStarts(s: string)
    requires Split(s)[0] == "doll-backup"
    ensures s != [] && s[0] == 'd' && !HasDrive(s)
  {
    hide Split;
    SplitJoined(s);
    JoinedStarts(Split(s));
    assert "doll-backup"[0] == 'd' && "doll-backup"[1] == 'o';
  }

  lemma JoinedStarts(parts: seq<string>)
    requires parts != []
    ensures parts[0] <= Joined(parts)
  {
  }

  // ----- lower case -----------------------------------------------------------------------------------------

  const CAPITALS := "ABCDEFGHIJKLMNOPQRSTUVWXYZ"
  const SMALL := "abcdefghijklmnopqrstuvwxyz"

  /** Lower case takes each capital letter to its small one and leaves every other character. */
  lemma LowerMeans(c: char)
    ensures forall i :: 0 <= i < 26 && CAPITALS[i] == c ==> LowerAscii(c) == SMALL[i]
    ensures c !in CAPITALS ==> LowerAscii(c) == c
  {
    assert forall i :: 0 <= i < 26 ==>
      CAPITALS[i] as int == 'A' as int + i && SMALL[i] as int == 'a' as int + i;
    if 'A' <= c <= 'Z' { assert CAPITALS[c as int - 'A' as int] == c; }
  }
}
