/**
 * The offline gate of scripts/check_migration_ledger_offline.py.  Each `_check_*` function is a
 * method that appends violations in loops; it reports none exactly when a stated condition on the
 * repository holds.
 */
module MigrationLedger {
  import opened Common
  import opened JsonPointer
  import opened JsonValues
  import opened PathSegments
  import Decimal

  // ---------------------------------------------------------------------------------------
  // Repository and contract
  // ---------------------------------------------------------------------------------------

  /** What the gate reads from the repository. */
  datatype Repo = Repo(
    root: seq<string>,              // the parts of the repository's own path
    listing: seq<string>,           // the *.sql files of the canonical history, in directory order
    bytes: map<string, string>,     // contents of those files
    manifest: Option<Manifest>,     // None when it cannot be read
    documents: map<string, Json>,   // evidence documents that can be read
    texts: map<string, string>)     // documents with live-ledger claims that can be read

  /** `names` is None when the manifest key does not hold a list. */
  datatype Manifest = Manifest(forwardHistory: string, names: Option<seq<string>>)

  datatype Pin = Pin(file: string, sha256: string)

  datatype Artifact = Artifact(id: string, evidence: string, filePointer: string, shaPointer: string)

  datatype Registered = Registered(file: string, kind: string, count: int)

  /** A live-ledger claim: how often its pattern must match, and which repository fact each named
      group of the first match must equal. */
  datatype Claim = Claim(id: string, document: string, pattern: string, required: int, bindings: map<string, string>)

  /** The contract, with the regular expressions it carries given by their meaning: the version
      group of a file name, the number of matches of each destructive keyword in a text, and the
      named groups of each match of a claim pattern. */
  datatype Contract = Contract(
    canonicalHistory: string,
    versionOf: string -> Option<string>,
    pins: seq<Pin>,
    artifacts: seq<Artifact>,
    claims: seq<Claim>,
    findClaims: (string, string) -> seq<map<string, string>>,
    kinds: seq<string>,
    occurrences: (string, string) -> nat,
    destructive: seq<Registered>)

  type Hash = string -> string

  datatype Violation =
    | BrokenStructure
    | NoMigrationFiles
    | NamePattern(file: string)
    | DuplicateVersion(version: string)
    | NotAscending
    | ManifestUnreadable
    | ManifestHistory
    | ManifestNotAList
    | MissingFromManifest(file: string)
    | NotOnDisk(file: string)
    | ManifestOrder
    | PinnedTwice(file: string)
    | Unpinned(file: string)
    | PinWithoutFile(file: string)
    | HashDrift(file: string)
    | EvidenceUnreadable(id: string)
    | CoordinatesUnresolved(id: string)
    | RecordedFileUnknown(id: string)
    | RecordedHashDiffers(id: string)
    | PinDisagrees(id: string)
    | ClaimUnreadable(id: string)
    | ClaimOccurrences(id: string)
    | ClaimDiffers(id: string, group: string)
    | RegisteredTwice(file: string, kind: string)
    | CountDiffers(file: string, kind: string)
    | NoLongerPresent(file: string, kind: string)

  // ---------------------------------------------------------------------------------------
  // Sorting paths
  // ---------------------------------------------------------------------------------------

  /** Strict lexicographic order by character. */
  predicate Less(a: string, b: string) {
    if b == "" then false
    else if a == "" then true
    else if a[0] != b[0] then a[0] < b[0]
    else Less(a[1..], b[1..])
  }

  lemma {:induction false} LessIsAnOrder(a: string, b: string, c: string)
    ensures !Less(a, a)
    ensures Less(a, b) && Less(b, c) ==> Less(a, c)
    ensures Less(a, b) || Less(b, a) || a == b
    decreases |a| + |b| + |c|
  {
    if a != "" && b != "" && c != "" {
      LessIsAnOrder(a[1..], b[1..], c[1..]);
      assert a == [a[0]] + a[1..] && b == [b[0]] + b[1..];
    } else if a != "" && b != "" {
      LessIsAnOrder(a[1..], b[1..], c);
      assert a == [a[0]] + a[1..] && b == [b[0]] + b[1..];
    } else if a != "" {
      LessIsAnOrder(a[1..], b, if c == "" then c else c[1..]);
    }
  }

  /** The order of texts: a proper beginning comes first, otherwise the first character that differs decides. */
  lemma {:induction false} LessIff(a: string, b: string)
    ensures Less(a, b) <==> (a <= b && a != b) || EarlierText(a, b)
    decreases |a|
  {
    if a == "" || b == "" {
    } else {
      var x, y := a[1..], b[1..];
      assert a == [a[0]] + x && b == [b[0]] + y;
      LessIff(x, y);
      if a[0] == b[0] {
        SameFirst(a[0], x, y);
      } else {
        if EarlierText(a, b) {
          EarlierByFirst(a, b);
        }
      }
    }
  }

  lemma EarlierByFirst(a: string, b: string)
    requires a != "" && b != "" && EarlierText(a, b)
    ensures a[0] <= b[0]
  {
  }

  lemma SameFirst(c: char, x: string, y: string)
    ensures EarlierText([c] + x, [c] + y) <==> EarlierText(x, y)
    ensures [c] + x <= [c] + y <==> x <= y
  {
    SameFirstEarlier(c, x, y);
    SameFirstBegins(c, x, y);
  }

  lemma SameFirstEarlier(c: char, x: string, y: string)
    ensures EarlierText([c] + x, [c] + y) <==> EarlierText(x, y)
  {
    var a, b := [c] + x, [c] + y;
    if EarlierText(a, b) {
      var i :| 0 <= i < |a| && i < |b| && (forall j :: 0 <= j < i ==> a[j] == b[j]) && a[i] < b[i];
      assert i > 0 && x[i - 1] < y[i - 1];
      assert forall j :: 0 <= j < i - 1 ==> x[j] == a[j + 1] && y[j] == b[j + 1];
    }
    if EarlierText(x, y) {
      var i :| 0 <= i < |x| && i < |y| && (forall j :: 0 <= j < i ==> x[j] == y[j]) && x[i] < y[i];
      assert a[i + 1] < b[i + 1];
      assert forall j :: 0 < j < i + 1 ==> a[j] == x[j - 1] && b[j] == y[j - 1];
    }
  }

  lemma SameFirstBegins(c: char, x: string, y: string)
    ensures [c] + x <= [c] + y <==> x <= y
  {
    var a, b := [c] + x, [c] + y;
    if x <= y {
      assert b[..|a|] == [c] + y[..|x|];
    }
    if a <= b {
      assert forall i :: 0 <= i < |x| ==> x[i] == a[i + 1] && a[i + 1] == b[i + 1] && b[i + 1] == y[i];
    }
  }

  function InsertSorted(x: string, s: seq<string>): (r: seq<string>)
    ensures |r| == |s| + 1 && (r[0] == x || (s != [] && r[0] == s[0]))
    ensures forall y :: y in r <==> y == x || y in s
  {
    if s == [] || Less(x, s[0]) then [x] + s else [s[0]] + InsertSorted(x, s[1..])
  }

  function SortStrings(s: seq<string>): (r: seq<string>)
    ensures |r| == |s|
    ensures forall y :: y in r <==> y in s
  {
    if s == [] then [] else InsertSorted(s[0], SortStrings(s[1..]))
  }

  /** Strictly ascending, hence without repetition. */
  ghost predicate Ascending(s: seq<string>) {
    |s| <= 1 || (Less(s[0], s[1]) && Ascending(s[1..]))
  }

  ghost predicate NoDuplicates(s: seq<string>) {
    forall i, j :: 0 <= i < j < |s| ==> s[i] != s[j]
  }

  lemma {:induction false} AscendingHead(s: seq<string>, y: string)
    requires Ascending(s) && s != [] && y in s[1..]
    ensures Less(s[0], y)
    decreases |s|
  {
    if y != s[1] {
      assert s[1..] == [s[1]] + s[1..][1..];
      AscendingHead(s[1..], y);
      LessIsAnOrder(s[0], s[1], y);
    }
  }

  lemma {:induction false} AscendingIsDistinct(s: seq<string>)
    requires Ascending(s)
    ensures NoDuplicates(s)
    decreases |s|
  {
    if s == [] {
    } else {
      AscendingIsDistinct(s[1..]);
      forall j | 0 < j < |s| ensures s[0] != s[j] {
        assert s[j] == s[1..][j - 1];
        AscendingHead(s, s[j]);
        LessIsAnOrder(s[0], s[0], s[0]);
      }
    }
  }

  lemma {:induction false} InsertAscends(x: string, s: seq<string>)
    requires Ascending(s) && x !in s
    ensures Ascending(InsertSorted(x, s))
  {
    if s == [] {
    } else if Less(x, s[0]) {
      assert ([x] + s)[1..] == s;
    } else {
      LessIsAnOrder(x, s[0], x);
      InsertAscends(x, s[1..]);
      var tail := InsertSorted(x, s[1..]);
      assert ([s[0]] + tail)[1..] == tail;
      if tail[0] != x {
        assert tail[0] == s[1];
      }
    }
  }

  lemma {:induction false} SortAscends(s: seq<string>)
    requires NoDuplicates(s)
    ensures Ascending(SortStrings(s))
  {
    if s == [] {
    } else {
      assert s == [s[0]] + s[1..];
      SortAscends(s[1..]);
      InsertAscends(s[0], SortStrings(s[1..]));
    }
  }

  /** Two ascending lists with the same members are the same list. */
  lemma {:induction false} AscendingIsUnique(a: seq<string>, b: seq<string>)
    requires Ascending(a) && Ascending(b) && forall y :: y in a <==> y in b
    ensures a == b
    decreases |a|
  {
    assert |b| > 0 ==> b[0] in b;
    if a == [] {
    } else {
      assert a[0] in b;
      assert a == [a[0]] + a[1..] && b == [b[0]] + b[1..];
      assert b[0] in a;
      if b[0] in a[1..] {
        AscendingHead(a, b[0]);
      }
      if a[0] in b[1..] {
        AscendingHead(b, a[0]);
      }
      LessIsAnOrder(a[0], b[0], a[0]);
      AscendingIsDistinct(a);
      AscendingIsDistinct(b);
      forall y ensures y in a[1..] <==> y in b[1..] {
        TailMember(a, y);
        TailMember(b, y);
      }
      AscendingIsUnique(a[1..], b[1..]);
    }
  }

  lemma TailMember(s: seq<string>, y: string)
    requires NoDuplicates(s) && s != []
    ensures y in s[1..] <==> y in s && y != s[0]
  {
    assert s == [s[0]] + s[1..];
    if y in s[1..] {
      var i :| 0 <= i < |s[1..]| && s[1..][i] == y;
      assert s[i + 1] == y;
    }
  }

  /** `_canonical_files` */
  function CanonicalFiles(repo: Repo): seq<string> {
    SortStrings(repo.listing)
  }

  /** A directory lists every file once and each can be read. */
  ghost predicate ValidRepo(repo: Repo) {
    NoDuplicates(repo.listing) && forall f :: f in repo.listing ==> f in repo.bytes
  }

  lemma {:induction false} AscendingPairs(s: seq<string>, i: nat, j: nat)
    requires Ascending(s) && i < j < |s|
    ensures Less(s[i], s[j])
    decreases |s|
  {
    if i == 0 {
      assert s[j] == s[1..][j - 1];
      AscendingHead(s, s[j]);
    } else {
      AscendingPairs(s[1..], i - 1, j - 1);
    }
  }

  /** The files are those of the directory, each once, in the order of their names. */
  lemma CanonicalFilesMean(repo: Repo)
    requires NoDuplicates(repo.listing)
    ensures var files := CanonicalFiles(repo);
            && (forall f :: f in files <==> f in repo.listing)
            && forall i, j :: 0 <= i < j < |files| ==> files[i] < files[j] || EarlierText(files[i], files[j])
  {
    var files := CanonicalFiles(repo);
    SortAscends(repo.listing);
    hide Less, Ascending, SortStrings;
    forall i, j | 0 <= i < j < |files| ensures files[i] < files[j] || EarlierText(files[i], files[j]) {
      AscendingPairs(files, i, j);
      LessIff(files[i], files[j]);
    }
  }

  // ---------------------------------------------------------------------------------------
  // C1 names and versions
  // ---------------------------------------------------------------------------------------

  function Versions(c: Contract, files: seq<string>): seq<string> {
    if files == [] then []
    else
      var v := c.versionOf(files[|files| - 1]);
      Versions(c, files[..|files| - 1]) + (if v.Some? then [v.value] else [])
  }

  /** Every file name carries a version, and the versions strictly ascend in file order. */
  ghost predicate NamesHold(c: Contract, files: seq<string>) {
    && (forall f :: f in files ==> c.versionOf(f).Some?)
    && Ascending(Versions(c, files))
  }

  lemma {:induction false} SortedDistinctAscends(s: seq<string>)
    ensures NoDuplicates(s) && SortStrings(s) == s <==> Ascending(s)
  {
    if NoDuplicates(s) && SortStrings(s) == s {
      SortAscends(s);
    }
    if Ascending(s) {
      AscendingIsDistinct(s);
      SortAscends(s);
      AscendingIsUnique(SortStrings(s), s);
    }
  }

  /** `_check_names` */
  method CheckNames(c: Contract, files: seq<string>) returns (errors: seq<Violation>)
    ensures errors == [] <==> NamesHold(c, files)
  {
    errors := [];
    var versions: seq<string> := [];
    var repeated: seq<string> := [];
    for i := 0 to |files|
      invariant errors == [] <==> forall f :: f in files[..i] ==> c.versionOf(f).Some?
      invariant versions == Versions(c, files[..i])
      invariant repeated == [] <==> NoDuplicates(versions)
    {
      assert files[..i + 1] == files[..i] + [files[i]];
      assert files[..i + 1][..i] == files[..i];
      var v := c.versionOf(files[i]);
      if v == None {
        assert files[i] in files[..i + 1];
        errors := errors + [NamePattern(files[i])];
        continue;
      }
      NoDuplicatesSnoc(versions, v.value);
      if v.value in versions {
        repeated := repeated + [v.value];
      }
      versions := versions + [v.value];
    }
    assert files[..|files|] == files;
    for i := 0 to |repeated|
      invariant |errors| >= i
      invariant errors == [] <==> i == 0 && forall f :: f in files ==> c.versionOf(f).Some?
    {
      errors := errors + [DuplicateVersion(repeated[i])];
    }
    SortedDistinctAscends(versions);
    if versions != SortStrings(versions) {
      errors := errors + [NotAscending];
    }
  }

  lemma NoDuplicatesSnoc(s: seq<string>, x: string)
    ensures NoDuplicates(s + [x]) <==> NoDuplicates(s) && x !in s
  {
    var t := s + [x];
    assert forall i :: 0 <= i < |s| ==> t[i] == s[i];
    if x in s {
      var i :| 0 <= i < |s| && s[i] == x;
      assert t[i] == t[|s|];
    }
  }

  // ---------------------------------------------------------------------------------------
  // C2 manifest
  // ---------------------------------------------------------------------------------------

  function Declared(c: Contract, names: seq<string>): seq<string> {
    seq(|names|, i requires 0 <= i < |names| => c.canonicalHistory + "/" + names[i])
  }

  /** The manifest lists exactly the canonical files, in their order. */
  ghost predicate ManifestHolds(c: Contract, repo: Repo, files: seq<string>) {
    match repo.manifest
    case None => false
    case Some(m) =>
      m.forwardHistory == c.canonicalHistory && m.names.Some? && Declared(c, m.names.value) == files
  }

  /** File by file: the i-th declared name, below the canonical directory, is the i-th file. */
  lemma ManifestMeans(c: Contract, repo: Repo, files: seq<string>)
    ensures ManifestHolds(c, repo, files) <==>
              && repo.manifest.Some? && repo.manifest.value.forwardHistory == c.canonicalHistory
              && repo.manifest.value.names.Some? && |repo.manifest.value.names.value| == |files|
              && forall i :: 0 <= i < |files| ==> files[i] == c.canonicalHistory + "/" + repo.manifest.value.names.value[i]
  {
  }

  /** `_check_manifest` */
  method CheckManifest(c: Contract, repo: Repo, files: seq<string>) returns (errors: seq<Violation>)
    ensures errors == [] <==> ManifestHolds(c, repo, files)
  {
    if repo.manifest == None {
      return [ManifestUnreadable];
    }
    var m := repo.manifest.value;
    errors := if m.forwardHistory != c.canonicalHistory then [ManifestHistory] else [];
    if m.names == None {
      return [ManifestNotAList];
    }
    var declared := Declared(c, m.names.value);
    var head := |errors|;
    for i := 0 to |files|
      invariant |errors| >= head
      invariant |errors| == head || declared != files
    {
      if files[i] !in declared {
        assert files[i] in files;
        errors := errors + [MissingFromManifest(files[i])];
      }
    }
    for i := 0 to |declared|
      invariant |errors| >= head
      invariant |errors| == head || declared != files
    {
      if declared[i] !in files {
        assert declared[i] in declared;
        errors := errors + [NotOnDisk(declared[i])];
      }
    }
    if declared != files {
      errors := errors + [ManifestOrder];
    }
  }

  // ---------------------------------------------------------------------------------------
  // C3 pinned hashes
  // ---------------------------------------------------------------------------------------

  function PinnedFiles(c: Contract): (r: seq<string>)
    ensures |r| == |c.pins| && forall i :: 0 <= i < |r| ==> r[i] == c.pins[i].file
  {
    seq(|c.pins|, i requires 0 <= i < |c.pins| => c.pins[i].file)
  }

  /** Every file is pinned once, every named pin is on disk, and the pinned hash is the actual one. */
  ghost predicate PinsHold(c: Contract, repo: Repo, files: seq<string>, sha256: Hash)
    requires forall f :: f in files ==> f in repo.bytes
  {
    && NoDuplicates(PinnedFiles(c))
    && (forall f :: f in files ==> f in PinnedFiles(c))
    && (forall f :: f in PinnedFiles(c) && f != "" ==> f in files)
    && (forall p :: p in c.pins && p.file in files ==> sha256(repo.bytes[p.file]) == p.sha256)
  }

  /** `_check_pins` */
  method CheckPins(c: Contract, repo: Repo, files: seq<string>, sha256: Hash) returns (errors: seq<Violation>)
    requires forall f :: f in files ==> f in repo.bytes
    ensures errors == [] <==> PinsHold(c, repo, files, sha256)
  {
    hide NoDuplicates;
    errors := [];
    var pinned := PinnedFiles(c);
    var seen: set<string> := {};
    NoDuplicatesEmpty();
    for i := 0 to |pinned|
      invariant seen == set x | x in pinned[..i]
      invariant errors == [] <==> NoDuplicates(pinned[..i])
    {
      assert pinned[..i + 1] == pinned[..i] + [pinned[i]];
      NoDuplicatesSnoc(pinned[..i], pinned[i]);
      if pinned[i] in seen {
        errors := errors + [PinnedTwice(pinned[i])];
      }
      seen := seen + {pinned[i]};
    }
    assert pinned[..|pinned|] == pinned;
    for i := 0 to |files|
      invariant errors == [] <==> NoDuplicates(pinned) && forall f :: f in files[..i] ==> f in pinned
    {
      assert files[..i + 1] == files[..i] + [files[i]];
      if files[i] !in seen {
        assert files[i] in files[..i + 1];
        errors := errors + [Unpinned(files[i])];
      }
    }
    assert files[..|files|] == files;
    for i := 0 to |pinned|
      invariant errors == [] <==>
                  && NoDuplicates(pinned) && (forall f :: f in files ==> f in pinned)
                  && forall f :: f in pinned[..i] && f != "" ==> f in files
    {
      assert pinned[..i + 1] == pinned[..i] + [pinned[i]];
      if pinned[i] != "" && pinned[i] !in files {
        assert pinned[i] in pinned[..i + 1];
        errors := errors + [PinWithoutFile(pinned[i])];
      }
    }
    for i := 0 to |c.pins|
      invariant errors == [] <==>
                  && NoDuplicates(pinned) && (forall f :: f in files ==> f in pinned)
                  && (forall f :: f in pinned && f != "" ==> f in files)
                  && forall p :: p in c.pins[..i] && p.file in files ==> sha256(repo.bytes[p.file]) == p.sha256
    {
      var p := c.pins[i];
      assert c.pins[..i + 1] == c.pins[..i] + [p];
      if p.file !in files {
        continue;
      }
      if sha256(repo.bytes[p.file]) != p.sha256 {
        assert p in c.pins[..i + 1];
        errors := errors + [HashDrift(p.file)];
      }
    }
    assert c.pins[..|c.pins|] == c.pins;
  }

  lemma NoDuplicatesEmpty()
    ensures NoDuplicates([])
  {
  }

  // ---------------------------------------------------------------------------------------
  // C4 recorded artifacts
  // ---------------------------------------------------------------------------------------

  /** The pinned hash of a file: the last pin that names it. */
  function PinOf(pins: seq<Pin>, file: string): Option<string> {
    if pins == [] then None
    else if pins[|pins| - 1].file == file then Some(pins[|pins| - 1].sha256)
    else PinOf(pins[..|pins| - 1], file)
  }

  /** The pinned hash of a file pinned once, and none exactly for a file that is not pinned. */
  lemma {:induction false} PinOfMeans(pins: seq<Pin>, file: string)
    ensures PinOf(pins, file) == None <==> forall p :: p in pins ==> p.file != file
    ensures PinOf(pins, file).Some? ==> exists i ::
              && 0 <= i < |pins| && pins[i] == Pin(file, PinOf(pins, file).value)
              && forall j :: i < j < |pins| ==> pins[j].file != file
    decreases |pins|
  {
    if pins == [] {
    } else {
      var n := |pins| - 1;
      PinOfMeans(pins[..n], file);
      assert pins == pins[..n] + [pins[n]];
      if pins[n].file != file && PinOf(pins, file).Some? {
        var i :| 0 <= i < n && pins[..n][i] == Pin(file, PinOf(pins[..n], file).value)
                 && forall j :: i < j < n ==> pins[..n][j].file != file;
        assert pins[i] == pins[..n][i];
        assert forall j :: i < j < n ==> pins[j] == pins[..n][j];
      }
    }
  }

  /** The recorded file and hash of an artifact, when the evidence resolves to two texts. */
  function Coordinates(a: Artifact, repo: Repo): Option<(Json, Json)> {
    if a.evidence !in repo.documents then None
    else
      var file := Resolve(repo.documents[a.evidence], a.filePointer);
      var sha := Resolve(repo.documents[a.evidence], a.shaPointer);
      if file.Ok? && sha.Ok? then Some((file.value, sha.value)) else None
  }

  /** The evidence names a canonical file whose actual and pinned hashes are the recorded one. */
  ghost predicate ArtifactHolds(a: Artifact, c: Contract, repo: Repo, files: seq<string>, sha256: Hash)
    requires forall f :: f in files ==> f in repo.bytes
  {
    var at := Coordinates(a, repo);
    && at.Some? && at.value.0.Text? && at.value.0.s in files
    && at.value.1 == Text(sha256(repo.bytes[at.value.0.s]))
    && PinOf(c.pins, at.value.0.s) == Some(sha256(repo.bytes[at.value.0.s]))
  }

  ghost predicate ArtifactsHold(c: Contract, repo: Repo, files: seq<string>, sha256: Hash)
    requires forall f :: f in files ==> f in repo.bytes
  {
    forall a :: a in c.artifacts ==> ArtifactHolds(a, c, repo, files, sha256)
  }

  /** `_check_recorded_artifacts` */
  method CheckRecordedArtifacts(c: Contract, repo: Repo, files: seq<string>, sha256: Hash)
    returns (errors: seq<Violation>)
    requires forall f :: f in files ==> f in repo.bytes
    ensures errors == [] <==> ArtifactsHold(c, repo, files, sha256)
  {
    hide PinOf;
    errors := [];
    for i := 0 to |c.artifacts|
      invariant errors == [] <==> forall a :: a in c.artifacts[..i] ==> ArtifactHolds(a, c, repo, files, sha256)
    {
      var a := c.artifacts[i];
      assert c.artifacts[..i + 1] == c.artifacts[..i] + [a];
      assert a in c.artifacts[..i + 1];
      if a.evidence !in repo.documents {
        errors := errors + [EvidenceUnreadable(a.id)];
        continue;
      }
      var file := Pointer(repo.documents[a.evidence], a.filePointer);
      var sha := Pointer(repo.documents[a.evidence], a.shaPointer);
      if file.Err? || sha.Err? {
        errors := errors + [CoordinatesUnresolved(a.id)];
        continue;
      }
      if !file.value.Text? || file.value.s !in files {
        errors := errors + [RecordedFileUnknown(a.id)];
        continue;
      }
      var relative := file.value.s;
      ghost var before := errors;
      if Text(sha256(repo.bytes[relative])) != sha.value {
        errors := errors + [RecordedHashDiffers(a.id)];
      }
      var pin := PinOf(c.pins, relative);
      if pin == None || Text(pin.value) != sha.value {
        errors := errors + [PinDisagrees(a.id)];
      }
    }
    assert c.artifacts[..|c.artifacts|] == c.artifacts;
  }

  // ---------------------------------------------------------------------------------------
  // C6 destructive statements
  // ---------------------------------------------------------------------------------------

  type Counts = map<(string, string), int>

  /** `counts` extended by the keywords found in one file. */
  function AddKinds(counts: Counts, c: Contract, file: string, text: string, kinds: seq<string>): Counts {
    if kinds == [] then counts
    else
      var kind := kinds[|kinds| - 1];
      var before := AddKinds(counts, c, file, text, kinds[..|kinds| - 1]);
      if c.occurrences(kind, text) > 0 then before[(file, kind) := c.occurrences(kind, text)] else before
  }

  /** `_destructive_counts`: every (file, kind) pair with its number of matches, where there are any. */
  function ActualCounts(c: Contract, repo: Repo, files: seq<string>): Counts
    requires forall f :: f in files ==> f in repo.bytes
  {
    if files == [] then map[]
    else
      var file := files[|files| - 1];
      AddKinds(ActualCounts(c, repo, files[..|files| - 1]), c, file, repo.bytes[file], c.kinds)
  }

  ghost predicate Occurs(c: Contract, repo: Repo, files: seq<string>, f: string, k: string)
    requires forall f :: f in files ==> f in repo.bytes
  {
    f in files && k in c.kinds && c.occurrences(k, repo.bytes[f]) > 0
  }

  lemma {:induction false} AddKindsMeans(counts: Counts, c: Contract, file: string, text: string, kinds: seq<string>,
                                         f: string, k: string)
    ensures var m := AddKinds(counts, c, file, text, kinds);
            if f == file && k in kinds && c.occurrences(k, text) > 0
            then (f, k) in m && m[(f, k)] == c.occurrences(k, text)
            else ((f, k) in m <==> (f, k) in counts) && ((f, k) in m ==> m[(f, k)] == counts[(f, k)])
    decreases |kinds|
  {
    if kinds == [] {
    } else {
      var init, last := kinds[..|kinds| - 1], kinds[|kinds| - 1];
      assert kinds == init + [last];
      AddKindsMeans(counts, c, file, text, init, f, k);
    }
  }

  /** The counts are exactly the positive numbers of matches. */
  lemma {:induction false} ActualCountsMean(c: Contract, repo: Repo, files: seq<string>, f: string, k: string)
    requires forall f :: f in files ==> f in repo.bytes
    ensures var m := ActualCounts(c, repo, files);
            && ((f, k) in m <==> Occurs(c, repo, files, f, k))
            && ((f, k) in m ==> m[(f, k)] == c.occurrences(k, repo.bytes[f]))
    decreases |files|
  {
    if files == [] {
    } else {
      var init, last := files[..|files| - 1], files[|files| - 1];
      assert files == init + [last];
      ActualCountsMean(c, repo, init, f, k);
      AddKindsMeans(ActualCounts(c, repo, init), c, last, repo.bytes[last], c.kinds, f, k);
    }
  }

  lemma ActualCountsArePositive(c: Contract, repo: Repo, files: seq<string>)
    requires forall f :: f in files ==> f in repo.bytes
    ensures forall key :: key in ActualCounts(c, repo, files) ==> ActualCounts(c, repo, files)[key] > 0
  {
    forall key | key in ActualCounts(c, repo, files) ensures ActualCounts(c, repo, files)[key] > 0 {
      ActualCountsMean(c, repo, files, key.0, key.1);
    }
  }

  method DestructiveCounts(c: Contract, repo: Repo, files: seq<string>)
    returns (counts: Counts, order: seq<(string, string)>)
    requires forall f :: f in files ==> f in repo.bytes
    ensures counts == ActualCounts(c, repo, files)
    ensures forall key :: key in order <==> key in counts
  {
    counts, order := map[], [];
    for i := 0 to |files|
      invariant forall key :: key in order <==> key in counts
      invariant counts == ActualCounts(c, repo, files[..i])
    {
      var file, text := files[i], repo.bytes[files[i]];
      assert files[..i + 1][..i] == files[..i];
      for j := 0 to |c.kinds|
        invariant forall key :: key in order <==> key in counts
        invariant counts == AddKinds(ActualCounts(c, repo, files[..i]), c, file, text, c.kinds[..j])
      {
        assert c.kinds[..j + 1][..j] == c.kinds[..j];
        var found := c.occurrences(c.kinds[j], text);
        if found > 0 {
          counts := counts[(file, c.kinds[j]) := found];
          order := order + [(file, c.kinds[j])];
        }
      }
      assert c.kinds[..|c.kinds|] == c.kinds;
    }
    assert files[..|files|] == files;
  }

  ghost predicate RegisteredOnce(entries: seq<Registered>) {
    forall i, j :: 0 <= i < j < |entries| ==> (entries[i].file, entries[i].kind) != (entries[j].file, entries[j].kind)
  }

  /** The registered counts as the dictionary the loop fills: later entries overwrite earlier ones. */
  function RegisteredCounts(entries: seq<Registered>): Counts {
    if entries == [] then map[]
    else
      var e := entries[|entries| - 1];
      RegisteredCounts(entries[..|entries| - 1])[(e.file, e.kind) := e.count]
  }

  /** Each statement is registered once, and registered and actual counts are the same map. */
  ghost predicate DestructiveHold(c: Contract, repo: Repo, files: seq<string>)
    requires forall f :: f in files ==> f in repo.bytes
  {
    RegisteredOnce(c.destructive) && RegisteredCounts(c.destructive) == ActualCounts(c, repo, files)
  }

  lemma RegisteredOnceSnoc(entries: seq<Registered>, e: Registered)
    ensures RegisteredOnce(entries + [e]) <==> RegisteredOnce(entries) && (e.file, e.kind) !in RegisteredCounts(entries)
  {
    RegisteredKeys(entries, (e.file, e.kind));
    var all := entries + [e];
    assert forall i :: 0 <= i < |entries| ==> all[i] == entries[i];
    if (e.file, e.kind) in RegisteredCounts(entries) {
      var i :| 0 <= i < |entries| && (entries[i].file, entries[i].kind) == (e.file, e.kind);
      assert all[|entries|] == e && (all[i].file, all[i].kind) == (all[|entries|].file, all[|entries|].kind);
    }
  }

  lemma {:induction false} RegisteredKeys(entries: seq<Registered>, key: (string, string))
    ensures key in RegisteredCounts(entries) <==>
            exists i :: 0 <= i < |entries| && (entries[i].file, entries[i].kind) == key
    decreases |entries|
  {
    if entries == [] {
    } else {
      RegisteredKeys(entries[..|entries| - 1], key);
    }
  }

  /** `_check_destructive` */
  method CheckDestructive(c: Contract, repo: Repo, files: seq<string>) returns (errors: seq<Violation>)
    requires forall f :: f in files ==> f in repo.bytes
    ensures errors == [] <==> DestructiveHold(c, repo, files)
  {
    hide RegisteredOnce, ActualCounts;
    errors := [];
    var actual, order := DestructiveCounts(c, repo, files);
    var registered: Counts := map[];
    var keys: seq<(string, string)> := [];
    RegisteredOnceEmpty();
    for i := 0 to |c.destructive|
      invariant registered == RegisteredCounts(c.destructive[..i])
      invariant forall key :: key in keys <==> key in registered
      invariant errors == [] <==> RegisteredOnce(c.destructive[..i])
    {
      var e := c.destructive[i];
      assert c.destructive[..i + 1] == c.destructive[..i] + [e];
      assert c.destructive[..i + 1][..i] == c.destructive[..i];
      RegisteredOnceSnoc(c.destructive[..i], e);
      if (e.file, e.kind) in registered {
        errors := errors + [RegisteredTwice(e.file, e.kind)];
      }
      registered := registered[(e.file, e.kind) := e.count];
      keys := keys + [(e.file, e.kind)];
    }
    assert c.destructive[..|c.destructive|] == c.destructive;
    for i := 0 to |order|
      invariant errors == [] <==>
                  RegisteredOnce(c.destructive) && forall key :: key in order[..i] ==> Expected(registered, key) == actual[key]
    {
      assert order[..i + 1] == order[..i] + [order[i]];
      assert order[i] in order;
      if Expected(registered, order[i]) != actual[order[i]] {
        assert order[i] in order[..i + 1];
        errors := errors + [CountDiffers(order[i].0, order[i].1)];
      }
    }
    assert order[..|order|] == order;
    for i := 0 to |keys|
      invariant errors == [] <==>
                  && RegisteredOnce(c.destructive)
                  && (forall key :: key in order ==> Expected(registered, key) == actual[key])
                  && forall key :: key in keys[..i] ==> key in actual
    {
      assert keys[..i + 1] == keys[..i] + [keys[i]];
      if keys[i] !in actual {
        assert keys[i] in keys[..i + 1];
        errors := errors + [NoLongerPresent(keys[i].0, keys[i].1)];
      }
    }
    assert keys[..|keys|] == keys;
    ActualCountsArePositive(c, repo, files);
    SameCounts(registered, actual);
  }

  /** `registered.get(key, 0)` */
  function Expected(registered: Counts, key: (string, string)): int {
    if key in registered then registered[key] else 0
  }

  lemma SameCounts(registered: Counts, actual: Counts)
    requires forall key :: key in actual ==> actual[key] > 0
    ensures registered == actual <==>
            (forall key :: key in actual ==> Expected(registered, key) == actual[key])
            && (forall key :: key in registered ==> key in actual)
  {
    if (forall key :: key in actual ==> Expected(registered, key) == actual[key])
       && (forall key :: key in registered ==> key in actual) {
      forall key ensures key in registered <==> key in actual
        ensures key in registered ==> registered[key] == actual[key]
      {
        if key in actual {
          assert Expected(registered, key) == actual[key];
        }
      }
      assert registered == actual;
    }
  }

  lemma RegisteredOnceEmpty()
    ensures RegisteredOnce([])
  {
  }

  // ---------------------------------------------------------------------------------------
  // C5 live-ledger claims
  // ---------------------------------------------------------------------------------------

  function Name(path: string): string {
    var parts := Split(path);
    parts[|parts| - 1]
  }

  /** The 14-character version prefix of a file name. */
  function VersionPrefix(path: string): string {
    var name := Name(path);
    if |name| <= 14 then name else name[..14]
  }

  function MaxPrefix(files: seq<string>): string {
    if files == [] then ""
    else
      var m, v := MaxPrefix(files[..|files| - 1]), VersionPrefix(files[|files| - 1]);
      if Less(m, v) then v else m
  }

  /** What the claim targets stand for. */
  function RepoFact(files: seq<string>, target: string): string {
    if target == "repo_count" then Decimal.Digits(|files|) else MaxPrefix(files)
  }

  /** The file's name: what follows the last slash. */
  lemma NameMeans(path: string)
    ensures NoSlash(Name(path))
    ensures path == Name(path) || exists directory :: path == directory + "/" + Name(path)
  {
    JoinOfSplit(path);
    LastPart(Split(path));
  }

  lemma {:induction false} LastPart(parts: seq<string>)
    requires parts != []
    ensures var last := parts[|parts| - 1];
            Join(parts) == last || exists directory :: Join(parts) == directory + "/" + last
  {
    if |parts| == 1 {
    } else {
      var tail, last := parts[1..], parts[|parts| - 1];
      LastPart(tail);
      if Join(tail) == last {
        assert Join(parts) == parts[0] + "/" + last;
      } else {
        var directory :| Join(tail) == directory + "/" + last;
        assert Join(parts) == (parts[0] + "/" + directory) + "/" + last;
      }
    }
  }

  /** The greatest version: that of some file, with none above it. */
  lemma {:induction false} MaxPrefixMeans(files: seq<string>)
    ensures files == [] ==> MaxPrefix(files) == ""
    ensures files != [] ==> (exists f :: f in files && MaxPrefix(files) == VersionPrefix(f)) || MaxPrefix(files) == ""
    ensures forall f :: f in files ==> !Less(MaxPrefix(files), VersionPrefix(f))
    decreases |files|
  {
    if files == [] {
    } else {
      var init, last := files[..|files| - 1], files[|files| - 1];
      assert files == init + [last];
      MaxPrefixMeans(init);
      var m, v := MaxPrefix(init), VersionPrefix(last);
      forall f | f in files ensures !Less(MaxPrefix(files), VersionPrefix(f)) {
        LessIsAnOrder(m, v, VersionPrefix(f));
        LessIsAnOrder(v, v, v);
      }
      assert last in files;
    }
  }

  /** The two facts a claim may state: the number of files, written in decimal, and the greatest
      14-character version among their names. */
  lemma RepoFactMeans(files: seq<string>)
    ensures var count := RepoFact(files, "repo_count");
            Decimal.AllDigits(count) && Decimal.ParseNat(count) == |files|
    ensures var version := RepoFact(files, "repo_max_version");
            && (forall f :: f in files ==> !Less(version, if |Name(f)| <= 14 then Name(f) else Name(f)[..14]))
            && (version == "" || exists f :: f in files && version == if |Name(f)| <= 14 then Name(f) else Name(f)[..14])
  {
    assert "repo_count"[5] != "repo_max_version"[5];
    hide Name, Less;
    Decimal.ParseDigits(|files|);
    MaxPrefixMeans(files);
    assert forall f :: f in files ==> VersionPrefix(f) == if |Name(f)| <= 14 then Name(f) else Name(f)[..14];
  }

  ghost predicate ClaimHolds(claim: Claim, c: Contract, repo: Repo, files: seq<string>) {
    && claim.document in repo.texts
    && var found := c.findClaims(claim.pattern, repo.texts[claim.document]);
       && |found| == claim.required && found != []
       && forall g :: g in claim.bindings ==> g in found[0] && found[0][g] == RepoFact(files, claim.bindings[g])
  }

  ghost predicate ClaimsHold(c: Contract, repo: Repo, files: seq<string>) {
    forall claim :: claim in c.claims ==> ClaimHolds(claim, c, repo, files)
  }

  /** `_check_live_claims`; the bindings of a claim are visited in any order. */
  method CheckLiveClaims(c: Contract, repo: Repo, files: seq<string>) returns (errors: seq<Violation>)
    requires forall claim :: claim in c.claims ==> claim.required >= 1
    ensures errors == [] <==> ClaimsHold(c, repo, files)
  {
    hide RepoFact;
    errors := [];
    for i := 0 to |c.claims|
      invariant errors == [] <==> forall claim :: claim in c.claims[..i] ==> ClaimHolds(claim, c, repo, files)
    {
      var claim := c.claims[i];
      assert c.claims[..i + 1] == c.claims[..i] + [claim];
      assert claim in c.claims[..i + 1];
      if claim.document !in repo.texts {
        errors := errors + [ClaimUnreadable(claim.id)];
        continue;
      }
      var found := c.findClaims(claim.pattern, repo.texts[claim.document]);
      if |found| != claim.required {
        errors := errors + [ClaimOccurrences(claim.id)];
        continue;
      }
      ghost var before := errors;
      var groups := claim.bindings.Keys;
      while groups != {}
        invariant groups <= claim.bindings.Keys
        invariant errors == [] <==> before == [] && forall g :: g in claim.bindings && g !in groups ==>
                    g in found[0] && found[0][g] == RepoFact(files, claim.bindings[g])
        decreases |groups|
      {
        var g :| g in groups;
        if g !in found[0] || found[0][g] != RepoFact(files, claim.bindings[g]) {
          errors := errors + [ClaimDiffers(claim.id, g)];
        }
        groups := groups - {g};
      }
    }
    assert c.claims[..|c.claims|] == c.claims;
  }

  // ---------------------------------------------------------------------------------------
  // The whole gate
  // ---------------------------------------------------------------------------------------

  /** One part of a path */
  function Entered(base: seq<string>, part: string): seq<string> {
    if part in {"", "."} then base
    else if part != ".." then base + [part]
    else if base == [] then [] else base[..|base| - 1]
  }

  /** Where a path leads from a directory given by its parts; links are not followed. */
  function Resolved(base: seq<string>, parts: seq<string>): seq<string>
    decreases |parts|
  {
    if parts == [] then base
    else
      Resolved(Entered(base, parts[0]), parts[1..])
  }

  /** `_within_root(root, path) is not None` */
  predicate IsRelative(root: seq<string>, path: string) {
    path != "" && path[0] != '/' && ':' !in Split(path)[0] && root <= Resolved(root, Split(path))
  }

  /** A path that never goes up stays inside. */
  lemma {:induction false} DownwardPathsStayInside(root: seq<string>, base: seq<string>, parts: seq<string>)
    requires root <= base && ".." !in parts
    ensures root <= Resolved(base, parts)
    decreases |parts|
  {
    if parts == [] {
    } else {
      var p := parts[0];
      assert root <= base + [p];
      DownwardPathsStayInside(root, if p in {"", "."} then base else base + [p], parts[1..]);
    }
  }

  /** Going up first leaves the root exactly unless the next part is the root's own name, or the root is
      the top. */
  lemma UpFirstLeavesRootIff(root: seq<string>, name: string)
    requires name !in {"", ".", ".."}
    ensures root <= Resolved(root, ["..", name]) <==> root == [] || root[|root| - 1] == name
  {
    UpAndDown(root, name);
    if root == [] {
    } else {
      SameLengthPrefix(root, root[..|root| - 1], name);
    }
  }

  /** A colon before the first slash, as in a drive or a scheme */
  ghost predicate ColonFirst(path: string) {
    exists i :: 0 <= i < |path| && path[i] == ':' && '/' !in path[..i]
  }

  lemma ColonFirstIff(path: string)
    ensures ':' in Split(path)[0] <==> ColonFirst(path)
  {
    SplitHead(path);
    var first := Split(path)[0];
    assert NoSlash(first);
    assert first == path[..|first|];
    if ':' in first {
      var i :| 0 <= i < |first| && first[i] == ':';
      assert path[i] == ':' && forall c :: c in path[..i] ==> c in first;
    }
    if ColonFirst(path) {
      var i :| 0 <= i < |path| && path[i] == ':' && '/' !in path[..i];
      assert forall k :: 0 <= k < i ==> path[k] in path[..i];
      assert |first| < |path| ==> path[|first|] == '/';
      assert first[i] == ':';
    }
  }

  /** A path without an upward part is repository-relative exactly when it is not empty, not absolute and has
      no colon before its first slash. */
  lemma DownwardIsRelativeIff(root: seq<string>, path: string)
    requires ".." !in Split(path)
    ensures IsRelative(root, path) <==> path != "" && path[0] != '/' && !ColonFirst(path)
  {
    DownwardPathsStayInside(root, root, Split(path));
    ColonFirstIff(path);
    hide Resolved, Split;
  }

  lemma UpFirstIsRelativeIff(root: seq<string>, name: string)
    requires name !in {"", ".", ".."} && NoSlash(name)
    ensures IsRelative(root, "../" + name) <==> root == [] || root[|root| - 1] == name
  {
    SplitAtSlash("..", name);
    NoSlashSplit(name);
    assert ".." + "/" + name == "../" + name;
    assert Split("../" + name) == ["..", name];
    UpFirstLeavesRootIff(root, name);
    hide Resolved, Split;
  }

  lemma ResolvedStep(base: seq<string>, part: string, rest: seq<string>)
    ensures Resolved(base, [part] + rest) == Resolved(Entered(base, part), rest)
  {
    assert ([part] + rest)[1..] == rest;
  }

  lemma UpAndDown(root: seq<string>, name: string)
    requires name !in {"", ".", ".."}
    ensures Resolved(root, ["..", name]) == (if root == [] then [] else root[..|root| - 1]) + [name]
  {
    var up := if root == [] then [] else root[..|root| - 1];
    ResolvedStep(root, "..", [name]);
    ResolvedStep(up, name, []);
    assert [".."] + [name] == ["..", name] && [name] + [] == [name];
  }

  lemma SameLengthPrefix(root: seq<string>, front: seq<string>, name: string)
    requires root != [] && front == root[..|root| - 1]
    ensures root <= front + [name] <==> root[|root| - 1] == name
  {
    assert root == front + [root[|root| - 1]];
    assert |front + [name]| == |root|;
  }

  predicate PinIsSound(root: seq<string>, p: Pin) {
    IsRelative(root, p.file) && IsSha256(p.sha256)
  }

  predicate ArtifactIsSound(root: seq<string>, a: Artifact) {
    IsRelative(root, a.evidence) && "/" <= a.filePointer && "/" <= a.shaPointer
  }

  predicate ClaimIsSound(root: seq<string>, claim: Claim) {
    && IsRelative(root, claim.document) && claim.required >= 1
    && claim.bindings.Keys == {"production", "repo", "max_version"}
    && claim.bindings.Values <= {"repo_count", "repo_max_version"}
  }

  predicate EntryIsSound(root: seq<string>, kinds: seq<string>, e: Registered) {
    IsRelative(root, e.file) && e.kind in kinds && e.count >= 1
  }

  /** C7, on a contract whose entries have the right JSON types. */
  predicate StructureHolds(c: Contract, root: seq<string>) {
    && IsRelative(root, c.canonicalHistory)
    && (forall i :: 0 <= i < |c.pins| ==> PinIsSound(root, c.pins[i]))
    && (forall i :: 0 <= i < |c.artifacts| ==> ArtifactIsSound(root, c.artifacts[i]))
    && c.claims != [] && (forall i :: 0 <= i < |c.claims| ==> ClaimIsSound(root, c.claims[i]))
    && c.kinds != [] && (forall i :: 0 <= i < |c.destructive| ==> EntryIsSound(root, c.kinds, c.destructive[i]))
  }

  /** `_check_structure`, entry by entry */
  method CheckStructure(c: Contract, root: seq<string>) returns (errors: seq<Violation>)
    ensures errors == [] <==> StructureHolds(c, root)
  {
    hide IsRelative, IsSha256;
    errors := if IsRelative(root, c.canonicalHistory) then [] else [BrokenStructure];
    for i := 0 to |c.pins|
      invariant errors == [] <==>
        IsRelative(root, c.canonicalHistory) && forall j :: 0 <= j < i ==> PinIsSound(root, c.pins[j])
    {
      if !IsRelative(root, c.pins[i].file) {
        errors := errors + [BrokenStructure];
      }
      if !IsSha256(c.pins[i].sha256) {
        errors := errors + [BrokenStructure];
      }
    }
    ghost var pins := errors == [];
    for i := 0 to |c.artifacts|
      invariant errors == [] <==> pins && forall j :: 0 <= j < i ==> ArtifactIsSound(root, c.artifacts[j])
    {
      if !IsRelative(root, c.artifacts[i].evidence) {
        errors := errors + [BrokenStructure];
      }
      if !("/" <= c.artifacts[i].filePointer) {
        errors := errors + [BrokenStructure];
      }
      if !("/" <= c.artifacts[i].shaPointer) {
        errors := errors + [BrokenStructure];
      }
    }
    if c.claims == [] {
      errors := errors + [BrokenStructure];
    }
    ghost var artifacts := errors == [];
    for i := 0 to |c.claims|
      invariant errors == [] <==> artifacts && forall j :: 0 <= j < i ==> ClaimIsSound(root, c.claims[j])
    {
      var claim := c.claims[i];
      if !IsRelative(root, claim.document) {
        errors := errors + [BrokenStructure];
      }
      if claim.required < 1 {
        errors := errors + [BrokenStructure];
      }
      if claim.bindings.Keys != {"production", "repo", "max_version"} {
        errors := errors + [BrokenStructure];
      } else if exists target :: target in claim.bindings.Values && target !in {"repo_count", "repo_max_version"} {
        errors := errors + [BrokenStructure];
      }
    }
    if c.kinds == [] {
      errors := errors + [BrokenStructure];
    }
    ghost var claims := errors == [];
    for i := 0 to |c.destructive|
      invariant errors == [] <==> claims && forall j :: 0 <= j < i ==> EntryIsSound(root, c.kinds, c.destructive[j])
    {
      var e := c.destructive[i];
      if !IsRelative(root, e.file) {
        errors := errors + [BrokenStructure];
      }
      if e.kind !in c.kinds {
        errors := errors + [BrokenStructure];
      }
      if e.count < 1 {
        errors := errors + [BrokenStructure];
      }
    }
  }

  ghost predicate GatePasses(c: Contract, repo: Repo, sha256: Hash)
    requires ValidRepo(repo)
  {
    var files := CanonicalFiles(repo);
    && StructureHolds(c, repo.root)
    && files != []
    && NamesHold(c, files)
    && ManifestHolds(c, repo, files)
    && PinsHold(c, repo, files, sha256)
    && ArtifactsHold(c, repo, files, sha256)
    && ClaimsHold(c, repo, files)
    && DestructiveHold(c, repo, files)
  }

  /** `check_repo`: no violation is reported exactly when every condition holds. */
  method CheckRepo(c: Contract, repo: Repo, sha256: Hash) returns (errors: seq<Violation>)
    requires ValidRepo(repo)
    ensures errors == [] <==> GatePasses(c, repo, sha256)
  {
    hide NamesHold, ManifestHolds, PinsHold, ArtifactsHold, ClaimsHold, DestructiveHold, IsRelative, IsSha256;
    var structure := CheckStructure(c, repo.root);
    if structure != [] {
      return structure;
    }
    var files := CanonicalFiles(repo);
    if files == [] {
      return [NoMigrationFiles];
    }
    var names := CheckNames(c, files);
    var manifest := CheckManifest(c, repo, files);
    var pins := CheckPins(c, repo, files, sha256);
    var artifacts := CheckRecordedArtifacts(c, repo, files, sha256);
    var claims := CheckLiveClaims(c, repo, files);
    var destructive := CheckDestructive(c, repo, files);
    errors := names + manifest + pins + artifacts + claims + destructive;
  }

  ghost predicate Injective(f: Hash) {
    forall a, b :: f(a) == f(b) ==> a == b
  }

  /** Two pin-checked repositories under one contract hold the same files. */
  lemma PinnedFilesAreTheFiles(c: Contract, repo: Repo, sha256: Hash, f: string)
    requires ValidRepo(repo) && StructureHolds(c, repo.root) && PinsHold(c, repo, CanonicalFiles(repo), sha256)
    ensures f in CanonicalFiles(repo) <==> f in PinnedFiles(c)
    ensures f in CanonicalFiles(repo) ==> exists p :: p in c.pins && p.file == f && sha256(repo.bytes[f]) == p.sha256
  {
    hide CanonicalFiles, IsSha256;
    var pinned := PinnedFiles(c);
    if f in pinned {
      var i :| 0 <= i < |pinned| && pinned[i] == f;
      assert c.pins[i] in c.pins && c.pins[i].file == f;
    }
  }

  lemma PinIsUnique(c: Contract, p: Pin, q: Pin)
    requires NoDuplicates(PinnedFiles(c)) && p in c.pins && q in c.pins && p.file == q.file
    ensures p == q
  {
    var i :| 0 <= i < |c.pins| && c.pins[i] == p;
    var j :| 0 <= j < |c.pins| && c.pins[j] == q;
    assert PinnedFiles(c)[i] == PinnedFiles(c)[j];
  }

  /** The gate pins the repository: under one contract and an injective hash, any two repositories
      that pass have the same ordered list of migration files, with the same contents, and the same
      destructive statements, which are the registered ones. */
  lemma PassingRepositoriesAgree(c: Contract, r1: Repo, r2: Repo, sha256: Hash)
    requires Injective(sha256) && ValidRepo(r1) && ValidRepo(r2)
    requires GatePasses(c, r1, sha256) && GatePasses(c, r2, sha256)
    ensures CanonicalFiles(r1) == CanonicalFiles(r2)
    ensures forall f :: f in r1.listing ==> f in r2.listing && r1.bytes[f] == r2.bytes[f]
    ensures ActualCounts(c, r1, CanonicalFiles(r1)) == RegisteredCounts(c.destructive)
    ensures ActualCounts(c, r2, CanonicalFiles(r2)) == RegisteredCounts(c.destructive)
  {
    hide StructureHolds, NamesHold, ManifestHolds, ArtifactsHold, ClaimsHold, ActualCounts, RegisteredCounts,
      Ascending, SortStrings;
    var f1, f2 := CanonicalFiles(r1), CanonicalFiles(r2);
    SortAscends(r1.listing);
    SortAscends(r2.listing);
    forall f ensures f in f1 <==> f in f2 {
      PinnedFilesAreTheFiles(c, r1, sha256, f);
      PinnedFilesAreTheFiles(c, r2, sha256, f);
    }
    AscendingIsUnique(f1, f2);
    forall f | f in r1.listing ensures f in r2.listing && r1.bytes[f] == r2.bytes[f] {
      PinnedFilesAreTheFiles(c, r1, sha256, f);
      PinnedFilesAreTheFiles(c, r2, sha256, f);
      assert f in f1 && f in f2;
      var p :| p in c.pins && p.file == f && sha256(r1.bytes[f]) == p.sha256;
      var q :| q in c.pins && q.file == f && sha256(r2.bytes[f]) == q.sha256;
      PinIsUnique(c, p, q);
    }
  }

  /** What the gate rejects: once a repository passes, adding, removing, renaming or editing any
      migration file makes it fail under the same contract. */
  lemma AnyChangeIsRejected(c: Contract, r1: Repo, r2: Repo, sha256: Hash, f: string)
    requires Injective(sha256) && ValidRepo(r1) && ValidRepo(r2) && GatePasses(c, r1, sha256)
    requires (f in r1.listing <==> f !in r2.listing)
             || (f in r1.listing && f in r2.listing && r1.bytes[f] != r2.bytes[f])
    ensures !GatePasses(c, r2, sha256)
  {
    hide GatePasses, SortStrings;
    if GatePasses(c, r2, sha256) {
      PassingRepositoriesAgree(c, r1, r2, sha256);
      PassingRepositoriesAgree(c, r2, r1, sha256);
    }
  }
}
