/**
 Snapshot manifests (internal/snapshot/model.go, internal/portablepath/path.go).
 Strings are byte strings. Case folding for collision keys, `strings.ToLower`,
 is a parameter known only to work segment by segment.
 */
module Manifest {
  import opened Text
  import Lex

  type Path = seq<Byte>

  const SLASH: Byte := 47
  const DOT: Byte := 46
  const MAXIMUM_FILES := 25000
  const MAXIMUM_CHUNKS := 250000
  const MAXIMUM_CHUNK_BYTES := 524288
  const MAXIMUM_PATH_BYTES := 4096
  const MAXIMUM_SNAPSHOT_BYTES := 107374182400
  const VERSION := 1

  datatype Chunk = Chunk(digest: seq<Byte>, size: nat)
  datatype File = File(path: Path, mode: nat, size: int, chunks: seq<Chunk>)
  datatype Manifest = Manifest(version: nat, files: seq<File>, totalBytes: int)

  // ---- digests and paths ----

  predicate HexDigit(b: Byte) { 48 <= b <= 57 || 97 <= b <= 102 }

  /** `ParseDigest`: 64 lowercase hexadecimal digits. */
  predicate ValidDigest(d: seq<Byte>) {
    |d| == 64 && forall i :: 0 <= i < |d| ==> HexDigit(d[i])
  }

  predicate Trail(p: seq<Byte>, k: nat) { k < |p| && 0x80 <= p[k] <= 0xBF }

  /** `utf8.ValidString`. */
  predicate Utf8(p: seq<Byte>)
    decreases |p|
  {
    p == [] ||
    (p[0] < 0x80 && Utf8(p[1..])) ||
    (0xC2 <= p[0] <= 0xDF && Trail(p, 1) && Utf8(p[2..])) ||
    (0xE0 <= p[0] <= 0xEF && Trail(p, 1) && Trail(p, 2) && (p[0] == 0xE0 ==> p[1] >= 0xA0) &&
     (p[0] == 0xED ==> p[1] <= 0x9F) && Utf8(p[3..])) ||
    (0xF0 <= p[0] <= 0xF4 && Trail(p, 1) && Trail(p, 2) && Trail(p, 3) && (p[0] == 0xF0 ==> p[1] >= 0x90) &&
     (p[0] == 0xF4 ==> p[1] <= 0x8F) && Utf8(p[4..]))
  }

  /** One of backslash, NUL, < > : " | ? * */
  predicate Forbidden(b: Byte) {
    b == 92 || b == 0 || b == 60 || b == 62 || b == 58 || b == 34 || b == 124 || b == 63 || b == 42
  }

  function Upper(b: Byte): Byte { if 97 <= b <= 122 then b - 32 else b }

  function Uppercase(s: seq<Byte>): seq<Byte> {
    seq<Byte>(|s|, i requires 0 <= i < |s| => Upper(s[i]))
  }

  /** CON, PRN, AUX, NUL, COM1-9 and LPT1-9, in any case and with any extension. */
  predicate Reserved(segment: seq<Byte>) {
    ReservedBase(Uppercase(Split(segment, DOT)[0]))
  }

  predicate ReservedBase(base: seq<Byte>) {
    base == [67, 79, 78] || base == [80, 82, 78] || base == [65, 85, 88] || base == [78, 85, 76] ||
    exists n: Byte :: 49 <= n <= 57 && (base == [67, 79, 77, n] || base == [76, 80, 84, n])
  }

  predicate ValidSegment(s: seq<Byte>) {
    s != [] && s[|s| - 1] != DOT && s[|s| - 1] != 32 && !Reserved(s) && forall i :: 0 <= i < |s| ==> s[i] >= 0x20
  }

  /**
   `portablepath.Validate`. The tests for a leading slash, for `path.Clean` and for
   dot segments are subsumed: every segment must be non-empty and not end in a dot.
   */
  predicate ValidPath(p: Path) {
    0 < |p| <= MAXIMUM_PATH_BYTES && Utf8(p) && (forall i :: 0 <= i < |p| ==> !Forbidden(p[i])) &&
    forall s :: s in Split(p, SLASH) ==> ValidSegment(s)
  }

  // ---- keys and ancestors ----

  type Fold = Path -> Path

  /** Folding never moves a separator. */
  ghost predicate FoldLaw(fold: Fold) {
    (forall a, b {:trigger fold(a + [SLASH] + b)} :: fold(a + [SLASH] + b) == fold(a) + [SLASH] + fold(b)) &&
    (forall a {:trigger fold(a)} :: SLASH !in a ==> SLASH !in fold(a))
  }

  function LastSlash(p: Path): (k: int)
    ensures -1 <= k < |p|
    ensures k >= 0 ==> p[k] == SLASH
    ensures forall i :: k < i < |p| ==> p[i] != SLASH
  {
    if p == [] then -1
    else if p[|p| - 1] == SLASH then |p| - 1
    else LastSlash(p[..|p| - 1])
  }

  /** `path.Dir` of a normalized relative path; None stands for ".". */
  function Dir(p: Path): (d: Option<Path>)
    ensures d.Some? ==> |d.value| < |p|
  {
    var k := LastSlash(p);
    if k < 0 then None else Some(p[..k])
  }

  predicate ProperAncestor(a: Path, p: Path) {
    |a| < |p| && p[..|a|] == a && p[|a|] == SLASH
  }

  /** Walking up with `Dir` visits exactly the proper ancestors. */
  lemma {:induction false} DirStep(a: Path, p: Path)
    ensures ProperAncestor(a, p) <==> Dir(p).Some? && (Dir(p).value == a || ProperAncestor(a, Dir(p).value))
  {
    var k := LastSlash(p);
    if 0 <= |a| <= k { assert p[..k][..|a|] == p[..|a|]; }
  }

  /** The two path rules a manifest is checked against: collision keys and portability. */
  datatype Rules = Rules(fold: Fold, path: Path -> bool)

  /** The rules in use, for a given `strings.ToLower`. */
  function Portable(fold: Fold): Rules { Rules(fold, ValidPath) }

  // ---- validation ----

  function Sum(chunks: seq<Chunk>): nat {
    if chunks == [] then 0 else Sum(chunks[..|chunks| - 1]) + chunks[|chunks| - 1].size
  }

  function Total(files: seq<File>): int {
    if files == [] then 0 else Total(files[..|files| - 1]) + files[|files| - 1].size
  }

  function Count(files: seq<File>): nat {
    if files == [] then 0 else Count(files[..|files| - 1]) + |files[|files| - 1].chunks|
  }

  predicate ValidChunk(c: Chunk) { ValidDigest(c.digest) && 0 < c.size <= MAXIMUM_CHUNK_BYTES }

  predicate ValidFile(rules: Rules, f: File) {
    rules.path(f.path) && (f.mode == 0x1A4 || f.mode == 0x1ED) && f.size == Sum(f.chunks) &&
    forall i :: 0 <= i < |f.chunks| ==> ValidChunk(f.chunks[i])
  }

  /** File `j` against everything before it: sorted, a new key, and below no earlier file's key. */
  predicate Fits(rules: Rules, files: seq<File>, j: nat)
    requires j < |files|
  {
    (j > 0 ==> Lex.Less(files[j - 1].path, files[j].path)) &&
    forall i :: 0 <= i < j ==>
      rules.fold(files[i].path) != rules.fold(files[j].path) &&
      !ProperAncestor(rules.fold(files[i].path), rules.fold(files[j].path))
  }

  /** What `Manifest.Validate` accepts. */
  predicate Accepted(rules: Rules, m: Manifest) {
    m.version == VERSION && |m.files| <= MAXIMUM_FILES && 0 <= m.totalBytes <= MAXIMUM_SNAPSHOT_BYTES &&
    (forall j :: 0 <= j < |m.files| ==> ValidFile(rules, m.files[j]) && Fits(rules, m.files, j)) &&
    Count(m.files) <= MAXIMUM_CHUNKS && Total(m.files) == m.totalBytes
  }

  /** The inner loop over a file's chunks. */
  method CheckChunks(chunks: seq<Chunk>, counted: nat) returns (ok: bool, bytes: nat, chunkCount: nat)
    requires counted <= MAXIMUM_CHUNKS
    ensures ok <==> counted + |chunks| <= MAXIMUM_CHUNKS && forall i :: 0 <= i < |chunks| ==> ValidChunk(chunks[i])
    ensures ok ==> bytes == Sum(chunks) && chunkCount == counted + |chunks|
  {
    bytes, chunkCount := 0, counted;
    for i := 0 to |chunks|
      invariant chunkCount == counted + i <= MAXIMUM_CHUNKS && bytes == Sum(chunks[..i])
      invariant forall k :: 0 <= k < i ==> ValidChunk(chunks[k])
    {
      assert chunks[..i + 1][..i] == chunks[..i];
      chunkCount := chunkCount + 1;
      if chunkCount > MAXIMUM_CHUNKS || !ValidChunk(chunks[i]) { return false, bytes, chunkCount; }
      bytes := bytes + chunks[i].size;
    }
    assert chunks[..|chunks|] == chunks;
    ok := true;
  }

  /** The loop that walks up from a key looking for an earlier file. */
  method UnderEarlierFile(seen: set<Path>, key: Path) returns (found: bool)
    ensures found <==> exists a :: a in seen && ProperAncestor(a, key)
  {
    var parent := Dir(key);
    DirSteps(seen, key);
    while parent.Some?
      invariant (exists a :: a in seen && ProperAncestor(a, key)) <==>
                (parent.Some? && (parent.value in seen || exists a :: a in seen && ProperAncestor(a, parent.value)))
      decreases if parent.Some? then 1 + |parent.value| else 0
    {
      if parent.value in seen { return true; }
      DirSteps(seen, parent.value);
      parent := Dir(parent.value);
    }
    found := false;
  }

  lemma DirSteps(seen: set<Path>, p: Path)
    ensures (exists a :: a in seen && ProperAncestor(a, p)) <==>
            (Dir(p).Some? && (Dir(p).value in seen || exists a :: a in seen && ProperAncestor(a, Dir(p).value)))
  {
    forall a | a in seen
      ensures ProperAncestor(a, p) <==> Dir(p).Some? && (Dir(p).value == a || ProperAncestor(a, Dir(p).value))
    {
      DirStep(a, p);
    }
  }

  predicate PrefixGood(rules: Rules, m: Manifest, n: nat)
    requires n <= |m.files|
  {
    forall j :: 0 <= j < n ==> ValidFile(rules, m.files[j]) && Fits(rules, m.files, j)
  }

  lemma CountMonotone(files: seq<File>, n: nat)
    requires n <= |files|
    ensures Count(files[..n]) <= Count(files)
    decreases |files|
  {
    if n < |files| {
      assert files[..|files| - 1][..n] == files[..n];
      CountMonotone(files[..|files| - 1], n);
    } else {
      assert files[..n] == files;
    }
  }

  lemma TotalMonotone(files: seq<File>, n: nat)
    requires n <= |files| && forall j :: 0 <= j < |files| ==> files[j].size >= 0
    ensures Total(files[..n]) <= Total(files)
    decreases |files|
  {
    if n < |files| {
      assert files[..|files| - 1][..n] == files[..n];
      TotalMonotone(files[..|files| - 1], n);
    } else {
      assert files[..n] == files;
    }
  }

  /** The keys recorded before file `n`. */
  function Keys(rules: Rules, files: seq<File>, n: nat): set<Path>
    requires n <= |files|
  {
    if n == 0 then {} else Keys(rules, files, n - 1) + {rules.fold(files[n - 1].path)}
  }

  lemma {:induction false} KeysAre(rules: Rules, files: seq<File>, n: nat)
    requires n <= |files|
    ensures forall k :: k in Keys(rules, files, n) <==> exists i :: 0 <= i < n && rules.fold(files[i].path) == k
  {
    if n == 0 {
    } else {
      KeysAre(rules, files, n - 1);
    }
  }

  /** One file of the outer loop, with the running maps and totals. */
  method CheckFile(rules: Rules, m: Manifest, index: nat, seen: set<Path>, counted: nat)
    returns (ok: bool, chunkCount: nat)
    requires index < |m.files| && counted <= MAXIMUM_CHUNKS
    requires seen == Keys(rules, m.files, index)
    ensures ok <==>
              ValidFile(rules, m.files[index]) && Fits(rules, m.files, index) &&
              counted + |m.files[index].chunks| <= MAXIMUM_CHUNKS
    ensures ok ==> chunkCount == counted + |m.files[index].chunks|
  {
    var file := m.files[index];
    chunkCount := counted;
    KeysAre(rules, m.files, index);
    if !rules.path(file.path) { return false, counted; }
    if index > 0 && !Lex.Less(m.files[index - 1].path, file.path) { return false, counted; }
    var key := rules.fold(file.path);
    if key in seen {
      return false, counted;
    }
    var under := UnderEarlierFile(seen, key);
    if under { return false, counted; }
    assert Fits(rules, m.files, index);
    if (file.mode != 0x1A4 && file.mode != 0x1ED) || file.size < 0 { return false, counted; }
    var bytes;
    ok, bytes, chunkCount := CheckChunks(file.chunks, counted);
    if !ok { return; }
    if bytes != file.size || (file.size == 0 && |file.chunks| != 0) {
      EmptyFile(file.chunks);
      return false, chunkCount;
    }
  }

  lemma EmptyFile(chunks: seq<Chunk>)
    requires forall i :: 0 <= i < |chunks| ==> ValidChunk(chunks[i])
    ensures chunks != [] ==> Sum(chunks) > 0
  {}

  /** A file that fails its checks, or the chunk budget, makes the manifest unacceptable. */
  lemma Refuted(rules: Rules, m: Manifest, index: nat)
    requires index < |m.files|
    requires !(ValidFile(rules, m.files[index]) && Fits(rules, m.files, index) &&
               Count(m.files[..index]) + |m.files[index].chunks| <= MAXIMUM_CHUNKS)
    ensures !Accepted(rules, m)
  {
    assert m.files[..index + 1][..index] == m.files[..index];
    CountMonotone(m.files, index + 1);
  }

  lemma TooBig(rules: Rules, m: Manifest, n: nat)
    requires n <= |m.files| && Total(m.files[..n]) > MAXIMUM_SNAPSHOT_BYTES
    ensures !Accepted(rules, m)
  {
    if forall j :: 0 <= j < |m.files| ==> ValidFile(rules, m.files[j]) { TotalMonotone(m.files, n); }
  }

  lemma AllChecked(rules: Rules, m: Manifest)
    requires m.version == VERSION && |m.files| <= MAXIMUM_FILES && 0 <= m.totalBytes <= MAXIMUM_SNAPSHOT_BYTES
    requires PrefixGood(rules, m, |m.files|) && Count(m.files) <= MAXIMUM_CHUNKS
    ensures Accepted(rules, m) <==> Total(m.files) == m.totalBytes
  {}

  /** `Manifest.Validate`: accepts exactly the accepted manifests. */
  method Validate(rules: Rules, m: Manifest) returns (ok: bool)
    ensures ok <==> Accepted(rules, m)
  {
    if m.version != VERSION || |m.files| > MAXIMUM_FILES || m.totalBytes < 0 || m.totalBytes > MAXIMUM_SNAPSHOT_BYTES {
      return false;
    }
    var refused, total := CheckFiles(rules, m);
    if refused { return false; }
    AllChecked(rules, m);
    ok := total == m.totalBytes;
  }

  /** The first `n` files passed, and the running values are theirs. */
  predicate Checked(rules: Rules, m: Manifest, n: nat, seen: set<Path>, total: int, counted: nat) {
    n <= |m.files| && PrefixGood(rules, m, n) && seen == Keys(rules, m.files, n) &&
    total == Total(m.files[..n]) && counted == Count(m.files[..n]) && counted <= MAXIMUM_CHUNKS
  }

  lemma CheckedNext(rules: Rules, m: Manifest, n: nat, seen: set<Path>, total: int, counted: nat)
    requires Checked(rules, m, n, seen, total, counted) && n < |m.files|
    requires ValidFile(rules, m.files[n]) && Fits(rules, m.files, n) && counted + |m.files[n].chunks| <= MAXIMUM_CHUNKS
    ensures Checked(rules, m, n + 1, seen + {rules.fold(m.files[n].path)}, total + m.files[n].size,
                    counted + |m.files[n].chunks|)
  {
    assert m.files[..n + 1][..n] == m.files[..n];
  }

  /** The outer loop of `Validate`. */
  method CheckFiles(rules: Rules, m: Manifest) returns (refused: bool, total: int)
    ensures refused ==> !Accepted(rules, m)
    ensures !refused ==> PrefixGood(rules, m, |m.files|) && Count(m.files) <= MAXIMUM_CHUNKS && total == Total(m.files)
  {
    total := 0;
    var chunkCount := 0;
    var seen: set<Path> := {};
    for index := 0 to |m.files|
      invariant Checked(rules, m, index, seen, total, chunkCount)
    {
      var fine, counted := CheckFile(rules, m, index, seen, chunkCount);
      if !fine {
        Refuted(rules, m, index);
        return true, total;
      }
      CheckedNext(rules, m, index, seen, total, chunkCount);
      chunkCount := counted;
      seen := seen + {rules.fold(m.files[index].path)};
      total := total + m.files[index].size;
      if total > MAXIMUM_SNAPSHOT_BYTES {
        TooBig(rules, m, index + 1);
        return true, total;
      }
    }
    assert m.files[..|m.files|] == m.files;
    refused := false;
  }

  // ---- what acceptance means ----

  lemma PathsIncrease(rules: Rules, m: Manifest, i: nat, j: nat)
    requires Accepted(rules, m) && i < j < |m.files|
    ensures Lex.Less(m.files[i].path, m.files[j].path)
    decreases j - i
  {
    assert Fits(rules, m.files, j);
    if i + 1 >= j {
    } else {
      PathsIncrease(rules, m, i, j - 1);
      Lex.Transitive(m.files[i].path, m.files[j - 1].path, m.files[j].path);
    }
  }

  lemma AncestorFolds(fold: Fold, a: Path, p: Path)
    requires FoldLaw(fold) && ProperAncestor(a, p)
    ensures ProperAncestor(fold(a), fold(p))
  {
    var rest := p[|a| + 1..];
    assert p == a + [SLASH] + rest;
    assert fold(a + [SLASH] + rest) == fold(a) + [SLASH] + fold(rest);
  }

  lemma AncestorLess(a: Path, p: Path)
    requires ProperAncestor(a, p)
    ensures Lex.Less(a, p)
  {
    assert p == a + p[|a|..];
    Lex.PrefixLess(a, p[|a|..]);
  }

  lemma NotLater(rules: Rules, m: Manifest, i: nat, j: nat)
    requires Accepted(rules, m) && i < |m.files| && j < |m.files| && Lex.Less(m.files[i].path, m.files[j].path)
    ensures i < j
  {
    var a, p := m.files[i].path, m.files[j].path;
    Lex.Irreflexive(a);
    if j < i {
      PathsIncrease(rules, m, j, i);
      Lex.Transitive(a, p, a);
    }
  }

  /** No accepted path is an ancestor directory of another, with exact case. */
  lemma NoFileIsDirectory(rules: Rules, m: Manifest, i: nat, j: nat)
    requires FoldLaw(rules.fold) && Accepted(rules, m) && i < |m.files| && j < |m.files|
    ensures !ProperAncestor(m.files[i].path, m.files[j].path)
  {
    assert Fits(rules, m.files, j);
    if ProperAncestor(m.files[i].path, m.files[j].path) {
      AncestorLess(m.files[i].path, m.files[j].path);
      AncestorFolds(rules.fold, m.files[i].path, m.files[j].path);
      NotLater(rules, m, i, j);
    }
  }

  /**
   Every accepted manifest: paths strictly sorted with distinct keys, no file
   above another, and exact sums. A key may be an ancestor of another file's key
   only when the ancestor is listed later, since the scan looks back only.
   */
  lemma AcceptedMeans(rules: Rules, m: Manifest)
    requires FoldLaw(rules.fold) && Accepted(rules, m)
    ensures forall i, j :: 0 <= i < j < |m.files| ==>
              Lex.Less(m.files[i].path, m.files[j].path) && rules.fold(m.files[i].path) != rules.fold(m.files[j].path)
    ensures forall i, j :: 0 <= i < |m.files| && 0 <= j < |m.files| ==>
              !ProperAncestor(m.files[i].path, m.files[j].path)
    ensures forall i, j :: 0 <= i < |m.files| && 0 <= j < |m.files| ==>
              (ProperAncestor(rules.fold(m.files[i].path), rules.fold(m.files[j].path)) ==> j < i)
    ensures forall i :: 0 <= i < |m.files| ==> m.files[i].size == Sum(m.files[i].chunks)
    ensures m.totalBytes == Total(m.files)
  {
    forall i, j | 0 <= i < j < |m.files|
      ensures Lex.Less(m.files[i].path, m.files[j].path) && rules.fold(m.files[i].path) != rules.fold(m.files[j].path)
      ensures !ProperAncestor(rules.fold(m.files[i].path), rules.fold(m.files[j].path))
    {
      PathsIncrease(rules, m, i, j);
      assert Fits(rules, m.files, j);
    }
    forall i, j | 0 <= i < |m.files| && 0 <= j < |m.files|
      ensures !ProperAncestor(m.files[i].path, m.files[j].path)
    {
      NoFileIsDirectory(rules, m, i, j);
    }
  }

  /** Every ancestor of a folded path is the fold of an ancestor. */
  lemma {:induction false} AncestorUnfolds(fold: Fold, key: Path, p: Path) returns (d: Path)
    requires FoldLaw(fold) && ProperAncestor(key, fold(p))
    ensures ProperAncestor(d, p) && fold(d) == key
    decreases |p|
  {
    var k := LastSlash(p);
    assert k < 0 ==> SLASH !in fold(p);
    assert fold(p)[|key|] in fold(p);
    d := p[..k];
    var name := p[k + 1..];
    assert p == d + [SLASH] + name;
    var above := fold(d);
    assert fold(d + [SLASH] + name) == above + [SLASH] + fold(name);
    assert SLASH !in fold(name);
    LastSeparator(above, fold(name), |key|);
    if |key| == |above| {
    } else {
      assert fold(p)[..|above|] == above && above[..|key|] == fold(p)[..|key|];
      var higher := AncestorUnfolds(fold, key, d);
      assert p[..|d|][..|higher|] == p[..|higher|];
      d := higher;
    }
  }

  lemma LastSeparator(above: Path, name: Path, i: nat)
    requires SLASH !in name && i < |above + [SLASH] + name| && (above + [SLASH] + name)[i] == SLASH
    ensures i <= |above|
  {}

  /** Some file's key is a directory of another file's key. */
  predicate KeyAboveKey(rules: Rules, m: Manifest) {
    exists i, j :: 0 <= i < |m.files| && 0 <= j < |m.files| &&
      ProperAncestor(rules.fold(m.files[i].path), rules.fold(m.files[j].path))
  }

  /** File `i` has the key of a directory of file `j`, spelled differently. */
  ghost predicate Respells(rules: Rules, m: Manifest, i: nat, j: nat)
    requires i < |m.files| && j < |m.files|
  {
    exists d: Path :: ProperAncestor(d, m.files[j].path) && d != m.files[i].path &&
      rules.fold(d) == rules.fold(m.files[i].path)
  }

  /**
   Exactly when an accepted manifest has a key above another key: some path differs only by folding from
   a directory of a file listed before it.
   */
  lemma KeyAboveKeyExactly(rules: Rules, m: Manifest)
    requires FoldLaw(rules.fold) && Accepted(rules, m)
    ensures KeyAboveKey(rules, m) <==> exists i, j :: 0 <= j < i < |m.files| && Respells(rules, m, i, j)
  {
    AcceptedMeans(rules, m);
    if KeyAboveKey(rules, m) {
      var i, j :| 0 <= i < |m.files| && 0 <= j < |m.files| &&
        ProperAncestor(rules.fold(m.files[i].path), rules.fold(m.files[j].path));
      var d := AncestorUnfolds(rules.fold, rules.fold(m.files[i].path), m.files[j].path);
      assert Respells(rules, m, i, j);
    }
    if i, j :| 0 <= j < i < |m.files| && Respells(rules, m, i, j) {
      var d: Path :| ProperAncestor(d, m.files[j].path) && d != m.files[i].path &&
        rules.fold(d) == rules.fold(m.files[i].path);
      AncestorFolds(rules.fold, d, m.files[j].path);
    }
  }

  function LowerByte(b: Byte): Byte { if 65 <= b <= 90 then b + 32 else b }

  /** Folding restricted to ASCII; an instance of `FoldLaw`. */
  function Lower(p: Path): Path {
    seq<Byte>(|p|, i requires 0 <= i < |p| => LowerByte(p[i]))
  }

  lemma LowerIsFold()
    ensures FoldLaw(Lower)
  {
    forall a: Path, b: Path
      ensures Lower(a + [SLASH] + b) == Lower(a) + [SLASH] + Lower(b)
    {}
  }

  /** `A/b` followed by `a`: accepted, although `a` folds to a parent directory of `a/b`. */
  lemma CaseOnlyParentAccepted()
    ensures FoldLaw(Lower)
    ensures var m := Manifest(VERSION, [File([65, SLASH, 98], 0x1A4, 0, []), File([97], 0x1A4, 0, [])], 0);
            Accepted(Portable(Lower), m) && ProperAncestor(Lower(m.files[1].path), Lower(m.files[0].path))
  {
    var p, q: Path := [65, SLASH, 98], [97];
    var files := [File(p, 0x1A4, 0, []), File(q, 0x1A4, 0, [])];
    LowerPathValid();
    NestedPathValid();
    assert Lower(p) == [97, SLASH, 98] && Lower(q) == [97];
    EmptyFiles(files[0], files[1]);
    assert Fits(Portable(Lower), files, 0);
    assert Fits(Portable(Lower), files, 1);
    LowerIsFold();
  }

  lemma EmptyFiles(f: File, g: File)
    requires f.size == 0 && g.size == 0 && f.chunks == [] && g.chunks == []
    ensures Total([f, g]) == 0 && Count([f, g]) == 0
  {
    var one, two := [f], [f, g];
    assert one[..|one| - 1] == [] && one[|one| - 1] == f;
    assert Total(one) == 0;
    assert Count(one) == Count([]) + |f.chunks|;
    assert two[..|two| - 1] == one && two[|two| - 1] == g;
    assert Count(two) == Count(one) + |g.chunks|;
  }

  lemma PlainSegment(b: Byte)
    requires 65 <= b <= 122 && b != 92
    ensures ValidSegment([b])
  {
    var s := [b];
    var k := IndexFrom(s, DOT, 0);
    assert Split(s, DOT) == [s];
    assert |Uppercase(s)| == 1;
  }

  lemma LowerPathValid()
    ensures ValidPath([97])
  {
    PlainSegment(97);
    SplitJoin<Byte>([[97]], SLASH);
    assert Utf8([97]);
  }

  lemma NestedPathValid()
    ensures ValidPath([65, SLASH, 98])
  {
    PlainSegment(65);
    PlainSegment(98);
    var p: Path := [65, SLASH, 98];
    assert Join([[65], [98]], SLASH) == p by { assert [[65], [98]][1..] == [[98]]; }
    SplitJoin<Byte>([[65], [98]], SLASH);
    assert p[1..] == [SLASH, 98] && p[1..][1..] == [98] && p[1..][1..][1..] == [];
    assert Utf8([98]) && Utf8([SLASH, 98]) && Utf8(p);
  }
}
