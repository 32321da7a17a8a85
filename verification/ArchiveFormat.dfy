/** The backup archive format (src/doll/backup.py): member names, limits, and the two JSON
    documents that describe the members. Member names carry the archive root throughout. */
module ArchiveFormat {
  import opened Outcomes
  import opened Json
  import opened ManagedPaths
  import opened Texts

  const MAX_BACKUP_MEMBERS := 4096
  const MAX_BACKUP_MEMBER_BYTES := 768 * 1024 * 1024
  const MAX_BACKUP_TOTAL_BYTES := 1024 * 1024 * 1024
  const MAX_COMPRESSION_RATIO := 1000
  const MAX_JSON_BYTES := 4 * 1024 * 1024
  const BACKUP_FORMAT_VERSION := 1
  const WORKSPACE_SCHEMA_VERSION := 1
  const CURRENT_SCHEMA_VERSION := 3

  const PAYLOAD := "doll-backup/payload/"
  const ARTIFACTS := "doll-backup/payload/artifacts/"
  const MANIFEST := "doll-backup/manifest.json"
  const CHECKSUMS := "doll-backup/checksums.json"
  const README := "doll-backup/README.txt"
  const STATE_PACKAGE := "doll-backup/payload/state-package.zip"
  const WORKSPACE_RECORD := "doll-backup/payload/workspace.json"
  const DATABASE := "doll-backup/payload/state/doll-state.sqlite3"
  const SELF_REFERENCE := "/checksums.json"

  datatype Kind = StateKind | WorkspaceKind

  function KindText(kind: Kind): string
  {
    if kind == StateKind then "state" else "workspace"
  }

  const STATE_INCLUDED := ["doll_state_package"]
  const STATE_EXCLUDED :=
    ["backup_history", "caches", "model_assets", "reproducible_indexes", "runtime_assets", "secrets", "temporary_files"]
  const WORKSPACE_INCLUDED := ["authoritative_artifacts", "sqlite_state_snapshot", "workspace_identity"]
  const WORKSPACE_EXCLUDED :=
    ["audit_directory_files", "backup_history", "caches", "configuration_files", "model_assets",
     "reproducible_indexes", "runtime_assets", "secrets", "temporary_files"]

  function Included(kind: Kind): seq<string>
  {
    if kind == StateKind then STATE_INCLUDED else WORKSPACE_INCLUDED
  }

  function Excluded(kind: Kind): seq<string>
  {
    if kind == StateKind then STATE_EXCLUDED else WORKSPACE_EXCLUDED
  }

  // ----- what lies behind the loader ------------------------------------------------------

  /** What verifying a nested state package reports. */
  datatype Package = Package(workspaceId: string, schema: nat, revision: nat, records: nat, files: nat, omitted: nat)

  datatype WorkspaceIdentity = WorkspaceIdentity(workspaceId: string, schema: nat, revision: nat)

  datatype ArtifactRow = ArtifactRow(path: string, size: nat, hash: string)

  /** What a SQLite snapshot holds; `artifacts` are its active and archived artifact rows. */
  datatype Snapshot = Snapshot(
    workspaceId: string, schema: nat, revision: nat, secrets: nat, records: nat, events: nat,
    artifacts: seq<ArtifactRow>)

  /** Library functions: SHA-256 in hexadecimal, the JSON loader, case folding, the size of
      deflated bytes, UUID and timestamp syntax, and the three nested readers. */
  datatype Tools = Tools(
    digest: Bytes -> string, load: Bytes -> Option<Json>, fold: string -> string, packed: Bytes -> nat,
    uuid: string -> Option<string>, utc: string -> bool, package: Bytes -> Option<Package>,
    workspace: Bytes -> Option<WorkspaceIdentity>, snapshot: Bytes -> Option<Snapshot>)

  /** The prefix that stored content hashes carry. */
  function ContentHash(tools: Tools, content: Bytes): string
  {
    "sha256:" + tools.digest(content)
  }

  /** One member of a ZIP file as its reader lists it. */
  datatype Entry = Entry(name: string, content: Bytes, packed: nat, regular: bool)

  type Members = map<string, Bytes>

  /** `{info.filename: archive.read(info) for info in infos}`. */
  function MembersOf(entries: seq<Entry>): Members
  {
    if entries == [] then map[]
    else
      var last := entries[|entries| - 1];
      MembersOf(entries[..|entries| - 1])[last.name := last.content]
  }

  /** `_json_bytes`: the canonical encoding and a line feed. */
  function JsonLine(v: Json): Bytes
  {
    Encode(v) + [10]
  }

  /** `_load_json_bytes`. */
  function LoadJson(tools: Tools, content: Bytes): Option<Json>
  {
    if |content| > MAX_JSON_BYTES then None else tools.load(content)
  }

  predicate IsDigest(s: string)
  {
    |s| == 64 && forall i :: 0 <= i < |s| ==> IsDigit(s[i]) || 'a' <= s[i] <= 'f'
  }

  predicate StartsWith(s: string, prefix: string)
  {
    prefix <= s
  }

  // ----- artifact names -----------------------------------------------------------------------

  function ArtifactName(path: string): string
  {
    ARTIFACTS + path
  }

  /** `name.removeprefix(...)` of an artifact member. */
  function ArtifactPath(name: string): string
    requires StartsWith(name, ARTIFACTS)
  {
    name[|ARTIFACTS|..]
  }

  lemma ArtifactNames(path: string)
    ensures StartsWith(ArtifactName(path), ARTIFACTS) && ArtifactPath(ArtifactName(path)) == path
  {
  }

  lemma ArtifactPaths(name: string)
    requires StartsWith(name, ARTIFACTS)
    ensures ArtifactName(ArtifactPath(name)) == name
  {
  }

  // ----- the fixed names --------------------------------------------------------------------------

  /** A part that can stand alone in a path. */
  predicate PlainPart(c: string)
  {
    c != "" && c != "." && c != ".." && '/' !in c && '\\' !in c && '\0' !in c && !HasControl(c)
  }

  lemma MemberBelow(dir: string, c: string)
    requires ValidMemberName(dir) && PlainPart(c)
    ensures ValidMemberName(dir + "/" + c)
  {
    SplitBelow(dir, c);
    NoSlashSplit(c);
    ControlBelow(dir, c);
    RootIsLong(dir);
    var name := dir + "/" + c;
    assert name[0] == dir[0] && name[1] == dir[1];
  }

  lemma RootNamesMember()
    ensures ValidMemberName(BACKUP_ROOT)
  {
    hide Split;
    assert PlainPart(BACKUP_ROOT);
    NoSlashSplit(BACKUP_ROOT);
    assert PlainParts(BACKUP_ROOT);
  }

  lemma PayloadDirectory()
    ensures ValidMemberName("doll-backup/payload")
  {
    hide ValidMemberName;
    RootNamesMember();
    assert PlainPart("payload");
    MemberBelow(BACKUP_ROOT, "payload");
    assert BACKUP_ROOT + "/" + "payload" == "doll-backup/payload";
  }

  lemma BaseNamesValid()
    ensures ValidMemberName(MANIFEST) && ValidMemberName(CHECKSUMS) && ValidMemberName(README)
  {
    hide ValidMemberName, PlainPart;
    RootNamesMember();
    PartBelow(BACKUP_ROOT, "manifest.json", MANIFEST);
    PartBelow(BACKUP_ROOT, "checksums.json", CHECKSUMS);
    PartBelow(BACKUP_ROOT, "README.txt", README);
  }

  lemma PayloadNamesValid()
    ensures ValidMemberName(STATE_PACKAGE) && ValidMemberName(WORKSPACE_RECORD) && ValidMemberName(DATABASE)
  {
    hide ValidMemberName, PlainPart;
    PayloadDirectory();
    PartBelow("doll-backup/payload", "state-package.zip", STATE_PACKAGE);
    PartBelow("doll-backup/payload", "workspace.json", WORKSPACE_RECORD);
    DatabaseNameValid();
  }

  lemma DatabaseNameValid()
    requires ValidMemberName("doll-backup/payload")
    ensures ValidMemberName(DATABASE)
  {
    hide ValidMemberName, PlainPart;
    PartBelow("doll-backup/payload", "state", "doll-backup/payload/state");
    PartBelow("doll-backup/payload/state", "doll-state.sqlite3", DATABASE);
  }

  lemma PartBelow(dir: string, c: string, name: string)
    requires ValidMemberName(dir) && |c| >= 3 && (forall i :: 0 <= i < |c| ==> Letter(c[i]))
    requires name == dir + "/" + c
    ensures ValidMemberName(name)
  {
    hide ValidMemberName;
    PlainLetters(c);
    MemberBelow(dir, c);
  }

  predicate Letter(c: char)
  {
    'A' <= c <= 'Z' || 'a' <= c <= 'z' || '0' <= c <= '9' || c == '.' || c == '-'
  }

  lemma PlainLetters(c: string)
    requires |c| >= 3 && forall i :: 0 <= i < |c| ==> Letter(c[i])
    ensures PlainPart(c)
  {
  }

  /** A managed path makes a valid artifact member name. */
  lemma ArtifactNameValid(path: string)
    requires ValidManagedPath(path)
    ensures ValidMemberName(ArtifactName(path))
  {
    hide ValidMemberName, ValidManagedPath;
    PayloadDirectory();
    assert PlainPart("artifacts");
    MemberBelow("doll-backup/payload", "artifacts");
    assert "doll-backup/payload" + "/" + "artifacts" == "doll-backup/payload/artifacts";
    ManagedPathNamesMember("doll-backup/payload/artifacts", path);
    assert "doll-backup/payload/artifacts" + "/" == ARTIFACTS;
    assert "doll-backup/payload/artifacts" + "/" + path == ArtifactName(path);
  }

  /** Which names are payload, and which of them are artifacts. */
  lemma NamePrefixes()
    ensures !StartsWith(MANIFEST, PAYLOAD) && !StartsWith(CHECKSUMS, PAYLOAD) && !StartsWith(README, PAYLOAD)
    ensures StartsWith(STATE_PACKAGE, PAYLOAD) && StartsWith(WORKSPACE_RECORD, PAYLOAD) && StartsWith(DATABASE, PAYLOAD)
    ensures !StartsWith(STATE_PACKAGE, ARTIFACTS) && !StartsWith(WORKSPACE_RECORD, ARTIFACTS)
    ensures !StartsWith(DATABASE, ARTIFACTS)
    ensures forall name :: StartsWith(name, ARTIFACTS) ==> StartsWith(name, PAYLOAD)
  {
    assert MANIFEST[12] == 'm' && CHECKSUMS[12] == 'c' && README[12] == 'R' && PAYLOAD[12] == 'p';
    assert STATE_PACKAGE[20] == 's' && WORKSPACE_RECORD[20] == 'w' && DATABASE[20] == 's' && ARTIFACTS[20] == 'a';
    assert PAYLOAD <= ARTIFACTS;
  }

  lemma NamesDistinct()
    ensures |README| == 22 && |MANIFEST| == 25 && |CHECKSUMS| == 26
    ensures |STATE_PACKAGE| == 37 && |WORKSPACE_RECORD| == 34 && |DATABASE| == 44
  {
  }

  /** None of the listed fixed names ends like a self-reference. */
  lemma SelfReferences()
    ensures !EndsWith(MANIFEST, SELF_REFERENCE) && !EndsWith(README, SELF_REFERENCE)
    ensures !EndsWith(STATE_PACKAGE, SELF_REFERENCE) && !EndsWith(WORKSPACE_RECORD, SELF_REFERENCE)
    ensures !EndsWith(DATABASE, SELF_REFERENCE)
  {
    hide EndsWith;
    assert SELF_REFERENCE[14] == 'n' && SELF_REFERENCE[0] == '/' && SELF_REFERENCE[1] == 'c';
    OtherEnding(MANIFEST, SELF_REFERENCE, 0);
    OtherEnding(README, SELF_REFERENCE, 14);
    OtherEnding(STATE_PACKAGE, SELF_REFERENCE, 14);
    OtherEnding(WORKSPACE_RECORD, SELF_REFERENCE, 1);
    OtherEnding(DATABASE, SELF_REFERENCE, 14);
  }

  lemma OtherEnding(s: string, suffix: string, k: nat)
    requires k < |suffix| <= |s| && s[|s| - |suffix| + k] != suffix[k]
    ensures !EndsWith(s, suffix)
  {
    assert s[|s| - |suffix|..][k] == s[|s| - |suffix| + k];
  }

  lemma BaseNamesAscii()
    ensures forall i :: 0 <= i < |README| ==> README[i] as int < 128
    ensures forall i :: 0 <= i < |MANIFEST| ==> MANIFEST[i] as int < 128
    ensures forall i :: 0 <= i < |CHECKSUMS| ==> CHECKSUMS[i] as int < 128
  {
  }

  lemma PayloadNamesAscii()
    ensures forall i :: 0 <= i < |STATE_PACKAGE| ==> STATE_PACKAGE[i] as int < 128
    ensures forall i :: 0 <= i < |WORKSPACE_RECORD| ==> WORKSPACE_RECORD[i] as int < 128
  {
  }

  lemma DeepNamesAscii()
    ensures forall i :: 0 <= i < |DATABASE| ==> DATABASE[i] as int < 128
    ensures forall i :: 0 <= i < |ARTIFACTS| ==> ARTIFACTS[i] as int < 128
  {
  }

  /** The lengths of the folded fixed names tell them apart. */
  lemma FixedNamesFolded(fold: string -> string)
    requires IsCaseFold(fold)
    ensures |fold(README)| == 22 && |fold(MANIFEST)| == 25 && |fold(CHECKSUMS)| == 26
    ensures |fold(STATE_PACKAGE)| == 37 && |fold(WORKSPACE_RECORD)| == 34 && |fold(DATABASE)| == 44
    ensures fold(WORKSPACE_RECORD)[20] == 'w' && fold(DATABASE)[20] == 's'
  {
    hide IsCaseFold;
    BaseNamesAscii();
    PayloadNamesAscii();
    DeepNamesAscii();
    NamesDistinct();
    FoldOfAscii(fold, README);
    FoldOfAscii(fold, MANIFEST);
    FoldOfAscii(fold, CHECKSUMS);
    FoldOfAscii(fold, STATE_PACKAGE);
    FoldOfAscii(fold, WORKSPACE_RECORD);
    FoldOfAscii(fold, DATABASE);
    assert WORKSPACE_RECORD[20] == 'w' && DATABASE[20] == 's';
  }

  /** Folded artifact names keep the folded prefix, so they differ from the fixed ones, and two
      of them differ when their paths do. */
  lemma ArtifactNamesFolded(fold: string -> string, p: string, q: string)
    requires IsCaseFold(fold)
    ensures |fold(ArtifactName(p))| >= 30 && fold(ArtifactName(p))[20] == 'a'
    ensures fold(ArtifactName(p)) == fold(ArtifactName(q)) ==> fold(p) == fold(q)
  {
    DeepNamesAscii();
    FoldOfAscii(fold, ARTIFACTS);
    assert ARTIFACTS[20] == 'a';
    assert fold(ARTIFACTS + p) == fold(ARTIFACTS) + fold(p);
    assert fold(ARTIFACTS + q) == fold(ARTIFACTS) + fold(q);
    assert fold(ArtifactName(p))[|ARTIFACTS|..] == fold(p) && fold(ArtifactName(q))[|ARTIFACTS|..] == fold(q);
  }

  /** The last component of a managed path. */
  function LastPart(path: string): string
  {
    Split(path)[|Split(path)| - 1]
  }

  lemma LastPartSuffix(s: string)
    ensures LastPart(s) == "checksums.json" <==> s == "checksums.json" || EndsWith(s, SELF_REFERENCE)
  {
    hide Split, LastSlash;
    if '/' !in s {
      NoSlashSplit(s);
      SuffixHasSlash(s);
    } else {
      var k := LastSlash(s);
      var dir, c := s[..k], s[k + 1..];
      assert s == dir + "/" + c;
      SplitBelow(dir, c);
      NoSlashSplit(c);
      SuffixAtSlash(s, k);
    }
  }

  /** What follows the last slash decides the suffix. */
  lemma SuffixAtSlash(s: string, k: nat)
    requires k < |s| && s[k] == '/' && '/' !in s[k + 1..]
    ensures EndsWith(s, SELF_REFERENCE) <==> s[k + 1..] == "checksums.json"
    ensures s != "checksums.json"
  {
    assert SELF_REFERENCE[0] == '/' && SELF_REFERENCE[1..] == "checksums.json";
    if s[k + 1..] == "checksums.json" {
      assert s[|s| - 15..] == [s[k]] + s[k + 1..];
    }
    if EndsWith(s, SELF_REFERENCE) {
      SlashesOfSuffix(s, k);
      assert s[k + 1..] == s[k..][1..];
    }
    assert '/' !in "checksums.json";
  }

  lemma SuffixHasSlash(s: string)
    ensures EndsWith(s, SELF_REFERENCE) ==> '/' in s
  {
    if EndsWith(s, SELF_REFERENCE) {
      assert s[|s| - 15] == s[|s| - 15..][0] == SELF_REFERENCE[0];
    }
  }

  /** Where slashes can lie in a text with that suffix. */
  lemma SlashesOfSuffix(s: string, k: nat)
    requires k < |s| && EndsWith(s, SELF_REFERENCE)
    ensures k < |s| - 15 ==> '/' in s[k + 1..]
    ensures k > |s| - 15 ==> s[k] != '/'
  {
    var m := |s| - 15;
    assert s[m] == s[m..][0] == SELF_REFERENCE[0] == '/';
    if k < m { assert s[k + 1..][m - k - 1] == s[m]; }
    assert forall j :: 1 <= j < 15 ==> SELF_REFERENCE[j] != '/';
    if k > m { assert s[m..][k - m] == s[k]; }
  }

  function LastSlash(s: string): (k: nat)
    requires '/' in s
    ensures k < |s| && s[k] == '/' && '/' !in s[k + 1..]
  {
    if s[|s| - 1] == '/' then |s| - 1
    else
      assert s == s[..|s| - 1] + [s[|s| - 1]];
      var k := LastSlash(s[..|s| - 1]);
      assert s[k + 1..] == s[..|s| - 1][k + 1..] + [s[|s| - 1]];
      k
  }

  // ----- sums over members ---------------------------------------------------------------------------

  /** The bytes of the named members together. */
  function TotalOf(members: Members, names: set<string>): nat
    requires names <= members.Keys
  {
    if names == {} then 0
    else
      var name := Least(names);
      |members[name]| + TotalOf(members, names - {name})
  }

  /** The sum may be taken in any order. */
  lemma {:induction false} TotalWithout(members: Members, names: set<string>, name: string)
    requires names <= members.Keys && name in names
    ensures TotalOf(members, names) == |members[name]| + TotalOf(members, names - {name})
    decreases |names|
  {
    var least := Least(names);
    if least != name {
      TotalWithout(members, names - {least}, name);
      TotalWithout(members, names - {name}, least);
      assert names - {least} - {name} == names - {name} - {least};
    }
  }

  lemma {:induction false} TotalSame(a: Members, b: Members, names: set<string>)
    requires names <= a.Keys && names <= b.Keys && forall name :: name in names ==> |a[name]| == |b[name]|
    ensures TotalOf(a, names) == TotalOf(b, names)
    decreases |names|
  {
    if names != {} { TotalSame(a, b, names - {Least(names)}); }
  }

  /** The members below the payload directory. */
  function PayloadNames(members: Members): set<string>
  {
    set name | name in members && StartsWith(name, PAYLOAD)
  }

  /** `_payload_size`. */
  function PayloadSize(members: Members): nat
  {
    TotalOf(members, PayloadNames(members))
  }
}
