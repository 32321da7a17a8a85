/** What an accepted backup archive is known to hold (src/doll/backup.py). */
module BackupIntegrity {
  import opened ArchiveFormat
  import opened BackupLoader
  import opened BackupArchive
  import opened BackupAgreement

  function RowSizes(rows: seq<ArtifactRow>): nat
  {
    if rows == [] then 0 else RowSizes(rows[..|rows| - 1]) + rows[|rows| - 1].size
  }

  /** The artifact members of an archive. */
  function ArtifactMembers(members: Members): Members
  {
    map name | name in members && StartsWith(name, ARTIFACTS) :: members[name]
  }

  lemma ArtifactMembersCaptured(tools: Tools, members: Members, rows: seq<ArtifactRow>)
    requires RowsOk(rows) && ArtifactsMatch(tools, members, rows)
    ensures ArtifactsCaptured(tools, ArtifactMembers(members), rows)
  {
    hide RowsOk, StartsWith, ArtifactName, ContentHash, ArtifactPath;
    var artifacts := ArtifactMembers(members);
    forall i | 0 <= i < |rows| ensures RowMatches(tools, artifacts, rows[i]) {
      assert RowMatches(tools, members, rows[i]);
      ArtifactNames(rows[i].path);
    }
  }

  /** The artifact bytes add up to the sizes that the rows record. */
  lemma {:induction false} RowTotals(tools: Tools, artifacts: Members, rows: seq<ArtifactRow>, k: nat)
    requires ArtifactsCaptured(tools, artifacts, rows) && k <= |rows|
    ensures
      var names := set i | 0 <= i < k :: ArtifactName(rows[i].path);
      names <= artifacts.Keys && TotalOf(artifacts, names) == RowSizes(rows[..k])
  {
    hide ArtifactsCaptured, ArtifactName, TotalOf;
    var names := set i | 0 <= i < k :: ArtifactName(rows[i].path);
    forall i | 0 <= i < k ensures ArtifactName(rows[i].path) in artifacts { RowIsMember(tools, artifacts, rows, i); }
    if k == 0 {
      assert names == {};
      NoTotal(artifacts);
    } else {
      RowTotals(tools, artifacts, rows, k - 1);
      var last := ArtifactName(rows[k - 1].path);
      forall i | 0 <= i < k - 1 ensures ArtifactName(rows[i].path) != last {
        RowsDiffer(tools, artifacts, rows, i, k - 1);
      }
      assert names - {last} == set i | 0 <= i < k - 1 :: ArtifactName(rows[i].path);
      TotalWithout(artifacts, names, last);
      RowSize(tools, artifacts, rows, k - 1);
      assert rows[..k][..k - 1] == rows[..k - 1];
    }
  }

  lemma NoTotal(artifacts: Members)
    ensures TotalOf(artifacts, {}) == 0
  {
  }

  lemma RowSize(tools: Tools, artifacts: Members, rows: seq<ArtifactRow>, i: nat)
    requires ArtifactsCaptured(tools, artifacts, rows) && i < |rows|
    ensures ArtifactName(rows[i].path) in artifacts && |artifacts[ArtifactName(rows[i].path)]| == rows[i].size
  {
    hide ArtifactName, StartsWith, RowsOk;
    assert RowMatches(tools, artifacts, rows[i]);
  }

  lemma RowTotal(tools: Tools, artifacts: Members, rows: seq<ArtifactRow>)
    requires ArtifactsCaptured(tools, artifacts, rows)
    ensures TotalOf(artifacts, artifacts.Keys) == RowSizes(rows)
  {
    hide ArtifactsCaptured, ArtifactName, TotalOf, RowSizes;
    RowTotals(tools, artifacts, rows, |rows|);
    var names := set i | 0 <= i < |rows| :: ArtifactName(rows[i].path);
    forall name | name in artifacts ensures name in names {
      var i := RowOf(tools, artifacts, rows, name);
    }
    assert names == artifacts.Keys && rows[..|rows|] == rows;
  }

  /** Distinct names: an accepted archive has as many members as entries. */
  lemma EntryCount(tools: Tools, entries: seq<Entry>)
    requires NamesApart(tools, entries)
    ensures |MembersOf(entries)| == |entries|
  {
    hide MembersOf;
    var names := seq(|entries|, i requires 0 <= i < |entries| => entries[i].name);
    assert forall i, j :: 0 <= i < j < |entries| ==> entries[i].name != entries[j].name;
    MembersOfDistinct(entries);
    forall name ensures name in names <==> name in MembersOf(entries).Keys {
      if name in names {
        var i :| 0 <= i < |names| && names[i] == name;
        assert entries[i].name == name;
      }
      if name in MembersOf(entries) {
        var i :| 0 <= i < |entries| && entries[i].name == name;
        assert names[i] == name;
      }
    }
    ListedOnce(names, MembersOf(entries).Keys);
  }

  lemma ArtifactKeys(tools: Tools, artifacts: Members, rows: seq<ArtifactRow>)
    requires ArtifactsCaptured(tools, artifacts, rows)
    ensures artifacts.Keys == set i | 0 <= i < |rows| :: ArtifactName(rows[i].path)
  {
    hide ArtifactsCaptured, ArtifactName;
    forall i | 0 <= i < |rows| ensures ArtifactName(rows[i].path) in artifacts {
      RowIsMember(tools, artifacts, rows, i);
    }
    forall name | name in artifacts ensures exists i :: 0 <= i < |rows| && name == ArtifactName(rows[i].path) {
      var i := RowOf(tools, artifacts, rows, name);
    }
  }

  /** The members of a workspace archive besides the fixed ones are artifacts. */
  lemma WorkspaceKeys(members: Members)
    requires PathsForKind(members.Keys, WorkspaceKind)
    ensures members.Keys == BASE + {WORKSPACE_RECORD, DATABASE} + ArtifactMembers(members).Keys
    ensures |members| == 5 + |ArtifactMembers(members)|
  {
    hide StartsWith;
    var fixed, rest := BASE + {WORKSPACE_RECORD, DATABASE}, ArtifactMembers(members).Keys;
    assert members.Keys == fixed + rest;
    NamePrefixes();
    NamesDistinct();
    assert fixed !! rest;
    FiveFixed();
    assert |members| == |members.Keys| == |fixed + rest| == |fixed| + |rest|;
    assert |ArtifactMembers(members)| == |rest|;
  }

  lemma FiveFixed()
    ensures |BASE + {WORKSPACE_RECORD, DATABASE}| == 5
  {
    NamesDistinct();
    assert |{MANIFEST, CHECKSUMS}| == 2 && |{MANIFEST, CHECKSUMS, README}| == 3;
    assert BASE + {WORKSPACE_RECORD} == {MANIFEST, CHECKSUMS, README, WORKSPACE_RECORD};
    assert BASE + {WORKSPACE_RECORD, DATABASE} == {MANIFEST, CHECKSUMS, README, WORKSPACE_RECORD, DATABASE};
  }

  lemma InventoryApart(tools: Tools, entries: seq<Entry>)
    requires InventoryOk(tools, entries)
    ensures NamesApart(tools, entries)
  {
  }

  /** An accepted workspace archive is accounted for completely: its members are the five
      fixed ones and one artifact for each row of the snapshot, and the manifest's count and
      total are those of the identity, the database and the rows. */
  lemma WorkspaceAccounting(tools: Tools, entries: seq<Entry>)
    requires Accepts(tools, entries) && ManifestOf(tools, MembersOf(entries)).value.kind == WorkspaceKind
    ensures
      var members := MembersOf(entries);
      var m := ManifestOf(tools, members).value;
      && WORKSPACE_RECORD in members && DATABASE in members && tools.snapshot(members[DATABASE]).Some?
      && var rows := tools.snapshot(members[DATABASE]).value.artifacts;
      && members.Keys == BASE + {WORKSPACE_RECORD, DATABASE} + (set i | 0 <= i < |rows| :: ArtifactName(rows[i].path))
      && |entries| == 5 + |rows| == 3 + m.payloadCount
      && m.payloadSize == |members[WORKSPACE_RECORD]| + |members[DATABASE]| + RowSizes(rows)
  {
    hide InventoryOk, ChecksumsAccept, MembersOf, ManifestOf, ReadManifest, TotalOf, RowSizes, StartsWith, ArtifactName;
    hide ArtifactsMatch, RowsOk, ArtifactsCaptured, PayloadSize, ManifestFields, IdentityMatches;
    var members := MembersOf(entries);
    var snapshot := tools.snapshot(members[DATABASE]).value;
    var artifacts := ArtifactMembers(members);
    ArtifactMembersCaptured(tools, members, snapshot.artifacts);
    RowCount(tools, artifacts, snapshot.artifacts);
    RowTotal(tools, artifacts, snapshot.artifacts);
    ArtifactKeys(tools, artifacts, snapshot.artifacts);
    WorkspaceKeys(members);
    var c := Capture(Source("", 0, 0, 0), "", members[WORKSPACE_RECORD], members[DATABASE], artifacts, []);
    WorkspacePayloadSize(c, members);
    InventoryApart(tools, entries);
    EntryCount(tools, entries);
  }

  /** Two accepted archives with the same checksum file have the same members, each with the
      same length and digest. */
  lemma SameChecksumsSameMembers(tools: Tools, a: seq<Entry>, b: seq<Entry>)
    requires Accepts(tools, a) && Accepts(tools, b)
    requires MembersOf(a)[CHECKSUMS] == MembersOf(b)[CHECKSUMS]
    ensures MembersOf(a).Keys == MembersOf(b).Keys
    ensures forall name :: name in MembersOf(a) ==>
      && |MembersOf(a)[name]| == |MembersOf(b)[name]|
      && tools.digest(MembersOf(a)[name]) == tools.digest(MembersOf(b)[name])
  {
    hide InventoryOk, MembersOf, ManifestAccepts, ChecksumsOk, Sums;
  }

  /** Corollary: the contrapositive, for one member of a tampered archive. */
  lemma TamperingRejected(tools: Tools, a: seq<Entry>, b: seq<Entry>, name: string)
    requires Accepts(tools, a) && CHECKSUMS in MembersOf(b) && MembersOf(a)[CHECKSUMS] == MembersOf(b)[CHECKSUMS]
    requires
      || ((name in MembersOf(a)) != (name in MembersOf(b)))
      || (name in MembersOf(a) && name in MembersOf(b)
          && SumOf(tools, MembersOf(a)[name]) != SumOf(tools, MembersOf(b)[name]))
    ensures !Accepts(tools, b)
  {
    hide InventoryOk, MembersOf, ManifestAccepts, ChecksumsOk, Sums;
  }
}
