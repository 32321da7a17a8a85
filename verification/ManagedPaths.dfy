/** Managed artifact paths (src/doll/workspace_files.py) and the archive member names that
    backups give them (src/doll/backup.py). */
module ManagedPaths {
  import opened Texts

  const MAX_RELATIVE_PATH_LENGTH := 512
  const MAX_PATH_COMPONENT_LENGTH := 120
  const TEMP_PREFIX := ".doll-tmp-"
  const BACKUP_ROOT := "doll-backup"

  predicate ReservedName(n: string)
  {
    n in {"CON", "PRN", "AUX", "NUL",
          "COM1", "COM2", "COM3", "COM4", "COM5", "COM6", "COM7", "COM8", "COM9",
          "LPT1", "LPT2", "LPT3", "LPT4", "LPT5", "LPT6", "LPT7", "LPT8", "LPT9"}
  }

  /** Upper case, as far as it matters for the reserved names, which are ASCII. */
  function Upper(s: string): string
  {
    if s == [] then []
    else [if 'a' <= s[0] <= 'z' then (s[0] as int - 32) as char else s[0]] + Upper(s[1..])
  }

  /** `value.split(".", 1)[0]`. */
  function BeforeDot(s: string): string
  {
    if s == [] || s[0] == '.' then [] else [s[0]] + BeforeDot(s[1..])
  }

  predicate ValidComponent(c: string)
  {
    && |c| <= MAX_PATH_COMPONENT_LENGTH
    && c == Strip(c) && (c != [] ==> c[|c| - 1] != '.')
    && !HasControl(c)
    && (forall i :: 0 <= i < |c| ==> c[i] !in "<>:\"|?*")
    && !ReservedName(BeforeDot(Upper(c)))
    && !(TEMP_PREFIX <= c)
  }

  /** `validate_managed_path` accepts the path; it hands the same text back. */
  predicate ValidManagedPath(s: string)
  {
    && s != [] && |s| <= MAX_RELATIVE_PATH_LENGTH
    && '\\' !in s && '\0' !in s
    && s[0] != '/' && !HasDrive(s)
    && PlainParts(s)
    && (forall i :: 0 <= i < |Split(s)| ==> ValidComponent(Split(s)[i]))
  }

  /** `_validate_member_name` accepts the name; it hands the same text back. */
  predicate ValidMemberName(s: string)
  {
    && s != [] && '\\' !in s && '\0' !in s
    && !HasControl(s)
    && s[0] != '/' && !HasDrive(s)
    && PlainParts(s)
    && Split(s)[0] == BACKUP_ROOT
  }

  // ----- splitting at slashes ----------------------------------------------------------

  /** Splitting a path below a directory gives the directory's parts, then the path's. */
  lemma {:induction false} SplitBelow(dir: string, s: string)
    ensures Split(dir + "/" + s) == Split(dir) + Split(s)
  {
    var whole := dir + "/" + s;
    if dir == [] {
      assert whole[1..] == s;
    } else {
      assert whole[1..] == dir[1..] + "/" + s;
      SplitBelow(dir[1..], s);
    }
  }

  /** A control character of a path lies in one of its parts. */
  lemma {:induction false} ControlInPart(s: string)
    requires HasControl(s)
    ensures exists i :: 0 <= i < |Split(s)| && HasControl(Split(s)[i])
  {
    var parts := Split(s);
    if s[0] as int < 32 {
      assert parts[0][0] == s[0];
      assert HasControl(parts[0]);
    } else {
      var k :| 0 <= k < |s| && s[k] as int < 32;
      assert s[1..][k - 1] == s[k];
      assert HasControl(s[1..]);
      ControlInPart(s[1..]);
      var rest := Split(s[1..]);
      var i :| 0 <= i < |rest| && HasControl(rest[i]);
      if s[0] == '/' {
        assert parts[i + 1] == rest[i];
      } else if i == 0 {
        var m :| 0 <= m < |rest[0]| && rest[0][m] as int < 32;
        assert parts[0][m + 1] == rest[0][m];
        assert HasControl(parts[0]);
      } else {
        assert parts[i] == rest[i];
      }
    }
  }

  /** A managed path makes an acceptable archive member name below any acceptable
      directory of the archive. */
  lemma ManagedPathNamesMember(dir: string, s: string)
    requires ValidManagedPath(s) && ValidMemberName(dir)
    ensures ValidMemberName(dir + "/" + s)
  {
    hide Split, ValidComponent, HasControl;
    var name := dir + "/" + s;
    SplitBelow(dir, s);
    NoControlInPath(s);
    ControlBelow(dir, s);
    RootIsLong(dir);
    assert name[0] == dir[0] && name[1] == dir[1];
  }

  lemma NoControlInPath(s: string)
    requires ValidManagedPath(s)
    ensures !HasControl(s)
  {
    hide Split;
    if HasControl(s) {
      ControlInPart(s);
      assert false;
    }
  }

  lemma ControlBelow(dir: string, s: string)
    ensures HasControl(dir + "/" + s) ==> HasControl(dir) || HasControl(s)
  {
    var name := dir + "/" + s;
    if HasControl(name) {
      var k :| 0 <= k < |name| && name[k] as int < 32;
      if k < |dir| { assert dir[k] == name[k]; }
      if k > |dir| { assert s[k - |dir| - 1] == name[k]; }
    }
  }

  /** The first part of a member name is longer than a drive letter. */
  lemma RootIsLong(dir: string)
    requires Split(dir)[0] == BACKUP_ROOT
    ensures |dir| >= |BACKUP_ROOT|
  {
    FirstPartLength(dir);
  }

  lemma {:induction false} FirstPartLength(s: string)
    ensures |Split(s)[0]| <= |s|
  {
    if s != [] && s[0] != '/' { FirstPartLength(s[1..]); }
  }

  // ----- plain components ------------------------------------------------------------------

  predicate SafeChar(c: char)
  {
    'A' <= c <= 'Z' || 'a' <= c <= 'z' || '0' <= c <= '9' || c == '.' || c == '-' || c == '_'
  }

  lemma ReservedLength(n: string)
    ensures ReservedName(n) ==> 3 <= |n| <= 4
  {
  }

  lemma {:induction false} StemLength(c: string, k: nat)
    requires k <= |c| && (forall i :: 0 <= i < k ==> c[i] != '.') && (k < |c| ==> c[k] == '.')
    ensures |BeforeDot(Upper(c))| == k
  {
    if k > 0 {
      assert forall i :: 0 <= i < k - 1 ==> c[1..][i] == c[i + 1];
      StemLength(c[1..], k - 1);
      assert Upper(c)[0] != '.' && Upper(c)[1..] == Upper(c[1..]);
    }
  }

  /** A component of ordinary characters is managed when its stem, of length `k`, is too short
      or too long to be a reserved name. */
  lemma PlainComponentValid(c: string, k: nat)
    requires 0 < |c| <= MAX_PATH_COMPONENT_LENGTH && (forall i :: 0 <= i < |c| ==> SafeChar(c[i]))
    requires c[0] != '.' && c[|c| - 1] != '.'
    requires k <= |c| && (forall i :: 0 <= i < k ==> c[i] != '.') && (k < |c| ==> c[k] == '.')
    requires k < 3 || k > 4
    ensures ValidComponent(c)
  {
    hide Upper, BeforeDot, ReservedName, Strip;
    StemLength(c, k);
    ReservedLength(BeforeDot(Upper(c)));
    StripKeeps(c);
    assert TEMP_PREFIX[0] == '.';
  }

  lemma {:induction false} NoSlashSplit(c: string)
    requires '/' !in c
    ensures Split(c) == [c]
  {
    if c != [] {
      NoSlashSplit(c[1..]);
      assert [c[0]] + c[1..] == c;
    }
  }

  /** A single such component is a managed path. */
  lemma PlainPathValid(c: string, k: nat)
    requires 0 < |c| <= MAX_PATH_COMPONENT_LENGTH && (forall i :: 0 <= i < |c| ==> SafeChar(c[i]))
    requires c[0] != '.' && c[|c| - 1] != '.'
    requires k <= |c| && (forall i :: 0 <= i < k ==> c[i] != '.') && (k < |c| ==> c[k] == '.')
    requires k < 3 || k > 4
    ensures ValidManagedPath(c)
  {
    hide Split, ValidComponent;
    PlainComponentValid(c, k);
    NoSlashSplit(c);
  }

  // ----- case folding ------------------------------------------------------------------------

  /** No two of the paths are alike up to case. */
  ghost predicate FoldDistinct(fold: string -> string, paths: set<string>)
  {
    forall a, b :: a in paths && b in paths && a != b ==> fold(a) != fold(b)
  }

  function LowerAscii(c: char): char
  {
    if 'A' <= c <= 'Z' then (c as int + 32) as char else c
  }

  /** What is used of `str.casefold`: it works character by character, and lower-cases ASCII. */
  ghost predicate IsCaseFold(fold: string -> string)
  {
    && (forall a, b :: fold(a + b) == fold(a) + fold(b))
    && (forall c: char :: c as int < 128 ==> fold([c]) == [LowerAscii(c)])
  }

  lemma {:induction false} FoldOfAscii(fold: string -> string, s: string)
    requires IsCaseFold(fold) && forall i :: 0 <= i < |s| ==> s[i] as int < 128
    ensures |fold(s)| == |s| && forall i :: 0 <= i < |s| ==> fold(s)[i] == LowerAscii(s[i])
  {
    if s == [] {
      assert s + s == s;
      assert fold(s + s) == fold(s) + fold(s);
    } else {
      var rest := s[1..];
      assert forall i :: 0 <= i < |rest| ==> rest[i] == s[i + 1];
      FoldOfAscii(fold, rest);
      assert [s[0]] + rest == s;
      assert fold([s[0]] + rest) == fold([s[0]]) + fold(rest);
      assert fold([s[0]]) == [LowerAscii(s[0])];
    }
  }
}
