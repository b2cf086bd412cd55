/** The content-addressed upload directory of TinyCTX/utils/attachments.py. */
module Uploads {
  import opened Outcomes

  type Bytes = seq<bv8>

  datatype UploadError = EscapesDirectory

  const SIDECAR := "cache.json"
  const SIDECAR_TMP := "cache.json.tmp"

  // ----- Names -----

  function Decimal(n: nat): (s: string)
    ensures s != "" && Value(s) == n && forall c <- s :: '0' <= c <= '9'
    ensures s[0] == '0' ==> n == 0 && s == "0"
  {
    if n < 10 then [Digit(n)] else Decimal(n / 10) + [Digit(n % 10)]
  }

  function Digit(d: nat): char
    requires d < 10
  {
    (d + '0' as int) as char
  }

  function Value(s: string): int {
    if s == "" then 0 else 10 * Value(s[..|s| - 1]) + (s[|s| - 1] as int - '0' as int)
  }

  /** Where `Path.suffix` starts: the last dot, unless it is the first or the last character. */
  function SuffixAt(name: string, i: nat): (at: nat)
    requires i <= |name|
    ensures at <= |name|
  {
    if i == 0 then |name|
    else if name[i - 1] == '.' then if 0 < i - 1 && i < |name| then i - 1 else |name|
    else SuffixAt(name, i - 1)
  }

  /** The name itself, then `stem_1.suffix`, `stem_2.suffix`, and so on. */
  function Candidate(name: string, k: nat): string {
    if k == 0 then name
    else
      var at := SuffixAt(name, |name|);
      name[..at] + "_" + Decimal(k) + name[at..]
  }

  lemma CandidatesDiffer(name: string, j: nat, k: nat)
    requires Candidate(name, j) == Candidate(name, k)
    ensures j == k
  {
    var at := SuffixAt(name, |name|);
    var a, b := Candidate(name, j), Candidate(name, k);
    assert |name[..at]| + |name[at..]| == |name|;
    if j > 0 && k > 0 {
      assert a == name[..at] + "_" + Decimal(j) + name[at..];
      assert a[at + 1..|a| - (|name| - at)] == Decimal(j);
      assert b[at + 1..|b| - (|name| - at)] == Decimal(k);
    }
  }

  lemma {:induction false} NoDotNoSuffix(name: string, i: nat)
    requires i <= |name| && '.' !in name[..i]
    ensures SuffixAt(name, i) == |name|
  {
    if i > 0 {
      assert name[..i] == name[..i - 1] + [name[i - 1]];
      NoDotNoSuffix(name, i - 1);
    }
  }

  lemma {:induction false} SuffixIsFromLastDot(name: string, dot: nat, i: nat)
    requires dot < i <= |name| && name[dot] == '.' && forall j | dot < j < i :: name[j] != '.'
    ensures SuffixAt(name, i) == if 0 < dot < |name| - 1 then dot else |name|
  {
    if dot < i - 1 {
      SuffixIsFromLastDot(name, dot, i - 1);
    }
  }

  /** A counter goes in front of the extension. */
  lemma CounterKeepsExtension(stem: string, extension: string, k: nat)
    requires stem != "" && extension != "" && '.' !in extension && k > 0
    ensures Candidate(stem + "." + extension, k) == stem + "_" + Decimal(k) + "." + extension
  {
    var name := stem + "." + extension;
    SuffixIsFromLastDot(name, |stem|, |name|);
    assert name[..|stem|] == stem && name[|stem|..] == "." + extension;
    assert stem + "_" + Decimal(k) + ("." + extension) == stem + "_" + Decimal(k) + "." + extension;
  }

  /** Where there is none, at the end: without a dot, or with no dot but the first or the last character. */
  lemma CounterWithoutExtension(name: string, k: nat)
    requires k > 0
    requires '.' !in name || ('.' !in name[1..]) || name[|name| - 1] == '.'
    ensures Candidate(name, k) == name + "_" + Decimal(k)
  {
    if '.' !in name {
      assert name[..|name|] == name;
      NoDotNoSuffix(name, |name|);
    } else if name[|name| - 1] == '.' {
      SuffixIsFromLastDot(name, |name| - 1, |name|);
    } else {
      assert name == [name[0]] + name[1..];
      assert forall j | 0 < j < |name| :: name[j] == name[1..][j - 1];
      SuffixIsFromLastDot(name, 0, |name|);
    }
    assert name[..|name|] == name && name[|name|..] == "";
    assert name + "_" + Decimal(k) + "" == name + "_" + Decimal(k);
  }

  /** Where the last component of a path starts. */
  function LastPartAt(path: string, i: nat): (at: nat)
    requires i <= |path|
    ensures at <= i && '/' !in path[at..i] && (at > 0 ==> path[at - 1] == '/')
  {
    if i == 0 || path[i - 1] == '/' then i
    else
      var at := LastPartAt(path, i - 1);
      assert path[at..i] == path[at..i - 1] + [path[i - 1]];
      at
  }

  /** `Path(path).name`: the last component that is neither empty nor a single dot. */
  function FileName(path: string): (name: string)
    ensures '/' !in name && name != "."
  {
    var at := LastPartAt(path, |path|);
    var last := path[at..];
    assert last == path[at..|path|];
    if last != "" && last != "." then last
    else if at == 0 then ""
    else FileName(path[..at - 1])
  }

  lemma {:induction false} LastPartIs(path: string, from: nat, i: nat)
    requires from <= i <= |path| && (from > 0 ==> path[from - 1] == '/')
    requires forall k | from <= k < i :: path[k] != '/'
    ensures LastPartAt(path, i) == from
  {
    if from < i {
      LastPartIs(path, from, i - 1);
    }
  }

  /** Directories in front of a name make no difference. */
  lemma DirectoriesAreStripped(directory: string, name: string)
    requires '/' !in name && name != "" && name != "."
    ensures FileName(name) == FileName(directory + "/" + name) == name
  {
    var path := directory + "/" + name;
    LastPartIs(path, |directory| + 1, |path|);
    assert path[|directory| + 1..] == name;
    LastPartIs(name, 0, |name|);
  }

  /** What an upload is stored as: never empty, never the sidecar. */
  function SafeName(filename: string): string {
    var name := FileName(filename);
    var safe := if name == "" then "unnamed" else name;
    if safe == SIDECAR || safe == SIDECAR_TMP then safe + ".upload" else safe
  }

  lemma {:induction false} SlashesAreNoName(path: string)
    requires forall i | 0 <= i < |path| :: path[i] == '/'
    ensures FileName(path) == ""
    decreases |path|
  {
    LastPartIs(path, |path|, |path|);
    if path != "" {
      SlashesAreNoName(path[..|path| - 1]);
    }
  }

  /** A path without a name is stored as "unnamed", and what would be the sidecar gets an extension. */
  lemma UnusableNames(path: string)
    requires forall i | 0 <= i < |path| :: path[i] == '/'
    ensures SafeName(path) == "unnamed"
    ensures SafeName("cache.json") == "cache.json.upload" && SafeName("cache.json.tmp") == "cache.json.tmp.upload"
  {
    hide FileName;
    SlashesAreNoName(path);
    DirectoriesAreStripped("", SIDECAR);
    DirectoriesAreStripped("", SIDECAR_TMP);
  }

  /** Every other name is kept. */
  lemma UsableNameIsKept(name: string)
    requires '/' !in name && name !in {"", ".", "cache.json", "cache.json.tmp"}
    ensures SafeName(name) == name
  {
    hide FileName;
    DirectoriesAreStripped("", name);
  }

  /** The name of an upload: it stays in the directory and is neither the sidecar nor its temporary file. */
  predicate IsInside(name: string) {
    '/' !in name && name !in {"", ".", "..", SIDECAR, SIDECAR_TMP}
  }

  lemma CandidatesStayInside(filename: string, k: nat)
    requires SafeName(filename) != ".."
    ensures IsInside(Candidate(SafeName(filename), k))
  {
    var name := SafeName(filename);
    var c := Candidate(name, k);
    if k > 0 {
      var at := SuffixAt(name, |name|);
      assert c == name[..at] + "_" + Decimal(k) + name[at..];
      assert '/' !in name[..at] && '/' !in name[at..];
      assert c[at] == '_';
      assert '_' in c && '_' !in SIDECAR && '_' !in SIDECAR_TMP;
    } else if FileName(filename) == SIDECAR || FileName(filename) == SIDECAR_TMP {
      assert |c| > |FileName(filename)|;
    }
  }

  // ----- The directory -----

  /** Files by name, and the sidecar from content hash to name. */
  datatype Dir = Dir(files: map<string, Bytes>, sidecar: map<string, string>)

  ghost predicate Injective(hash: Bytes -> string) {
    forall a: Bytes, b: Bytes :: hash(a) == hash(b) ==> a == b
  }

  /** An entry that leads to a file leads to the content it names. */
  predicate Truthful(d: Dir, hash: Bytes -> string) {
    forall h <- d.sidecar :: d.sidecar[h] in d.files ==> hash(d.files[d.sidecar[h]]) == h
  }

  predicate IsHit(d: Dir, h: string) {
    h in d.sidecar && d.sidecar[h] in d.files
  }

  ghost predicate IsFirstFree(d: Dir, name: string, dest: string) {
    dest !in d.files
    && exists k: nat :: dest == Candidate(name, k) && forall j: nat | j < k :: Candidate(name, j) in d.files
  }

  /** The state after some bytes were written, and nothing was recorded. */
  function Written(d: Dir, dest: string, data: Bytes): Dir {
    d.(files := d.files[dest := data])
  }

  /** The state after the bytes and the sidecar were written. */
  function Stored(d: Dir, dest: string, data: Bytes, h: string): Dir {
    Dir(d.files[dest := data], d.sidecar[h := dest])
  }

  /** No entry of other content is left on the name. */
  predicate IsClean(d: Dir, dest: string, h: string) {
    forall x <- d.sidecar :: d.sidecar[x] == dest ==> x == h
  }

  /** Storing keeps the sidecar truthful exactly when no entry of other content is left on the name. */
  lemma StoringIsTruthfulIff(d: Dir, hash: Bytes -> string, dest: string, data: Bytes)
    requires Truthful(d, hash) && dest !in d.files
    ensures Truthful(Stored(d, dest, data, hash(data)), hash) <==>
              IsClean(d, dest, hash(data))
  {
    var d' := Stored(d, dest, data, hash(data));
    if Truthful(d', hash) {
      forall h | h in d.sidecar && d.sidecar[h] == dest
        ensures h == hash(data)
      {
        assert h in d'.sidecar && d'.sidecar[h] == dest;
      }
    }
  }

  /** The same for bytes that are written and not recorded, all of them or the part that was written. */
  lemma WritingIsTruthfulIff(d: Dir, hash: Bytes -> string, dest: string, data: Bytes)
    requires Truthful(d, hash) && dest !in d.files
    ensures Truthful(Written(d, dest, data), hash) <==>
              IsClean(d, dest, hash(data))
  {}

  /** How the two writes of an upload go: the file is never opened, breaks off after some bytes, or is
      complete, and then the sidecar is replaced or not. */
  datatype Writing = Unopened | Partial(kept: Bytes) | Complete(recorded: bool)

  datatype Op = Save(filename: string, data: Bytes, writing: Writing) | Remove(file: string)

  function After(d: Dir, dest: string, data: Bytes, h: string, writing: Writing): Dir {
    match writing
    case Unopened => d
    case Partial(kept) => Written(d, dest, kept)
    case Complete(recorded) => if recorded then Stored(d, dest, data, h) else Written(d, dest, data)
  }

  /** One call of `save_upload`: the stored file of the same content if the sidecar leads to one, else
      a new file under the first free name.  A failed write is answered like a successful one. */
  ghost predicate Saves(hash: Bytes -> string, d: Dir, op: Op, r: Result<string, UploadError>, d': Dir)
    requires op.Save?
  {
    var h := hash(op.data);
    if IsHit(d, h) then d' == d && r == Ok(d.sidecar[h])
    else if SafeName(op.filename) == ".." then d' == d && r == Err(EscapesDirectory)
    else
      r.Ok? && IsFirstFree(d, SafeName(op.filename), r.value) && IsInside(r.value)
      && d' == After(d, r.value, op.data, h, op.writing)
  }

  class Uploads {
    const hash: Bytes -> string
    var dir: Dir

    constructor (hash: Bytes -> string)
      ensures this.hash == hash && dir == Dir(map[], map[])
    {
      this.hash, dir := hash, Dir(map[], map[]);
    }

    /** The collision loop: it ends because the directory is finite and the candidates differ. */
    method FirstFree(name: string) returns (dest: string)
      ensures IsFirstFree(dir, name, dest)
      ensures dest !in dir.files && (name !in dir.files ==> dest == name)
      ensures exists k: nat :: dest == Candidate(name, k) && forall j: nat | j < k :: Candidate(name, j) in dir.files
    {
      dest := name;
      var counter := 0;
      ghost var untried := dir.files.Keys;
      while dest in dir.files
        invariant dest == Candidate(name, counter)
        invariant forall j: nat | j < counter :: Candidate(name, j) in dir.files
        invariant forall j: nat | counter <= j && Candidate(name, j) in dir.files :: Candidate(name, j) in untried
        decreases untried
      {
        forall j: nat | counter < j
          ensures Candidate(name, j) != dest
        {
          if Candidate(name, j) == dest {
            CandidatesDiffer(name, j, counter);
          }
        }
        untried := untried - {dest};
        counter := counter + 1;
        dest := Candidate(name, counter);
      }
    }

    /** `save_upload`; `writing` says how the two writes go.  No file is ever overwritten, and neither
        is the sidecar. */
    method SaveUpload(filename: string, data: Bytes, writing: Writing) returns (r: Result<string, UploadError>)
      modifies this
      ensures Saves(hash, old(dir), Save(filename, data, writing), r, dir)
      ensures var hit := hash(data) in old(dir).sidecar && old(dir).sidecar[hash(data)] in old(dir).files;
              (hit ==> r == Ok(old(dir).sidecar[hash(data)]))
              && (r.Err? <==> !hit && SafeName(filename) == "..")
              && dir.files == (if hit || r.Err? || writing.Unopened? then old(dir).files
                               else old(dir).files[r.value := if writing.Partial? then writing.kept else data])
              && dir.sidecar == (if hit || r.Err? || writing != Complete(true) then old(dir).sidecar
                                 else old(dir).sidecar[hash(data) := r.value])
      ensures forall f <- old(dir).files :: f in dir.files && dir.files[f] == old(dir).files[f]
    {
      var h := hash(data);
      if h in dir.sidecar && dir.sidecar[h] in dir.files {
        return Ok(dir.sidecar[h]);
      }
      var name := SafeName(filename);
      if name == ".." {
        return Err(EscapesDirectory);
      }
      var dest := FirstFree(name);
      ghost var k: nat :| dest == Candidate(name, k);
      CandidatesStayInside(filename, k);
      r := Ok(dest);
      match writing
      case Unopened =>
      case Partial(kept) =>
        dir := dir.(files := dir.files[dest := kept]);
      case Complete(recorded) =>
        dir := dir.(files := dir.files[dest := data]);
        if recorded {
          dir := dir.(sidecar := dir.sidecar[h := dest]);
        }
    }
  }

  // ----- Over every history -----

  /** Uploads, and files removed by someone else; `answers` are what the uploads returned. */
  ghost predicate History(hash: Bytes -> string, ds: seq<Dir>, ops: seq<Op>,
                          answers: seq<Result<string, UploadError>>) {
    |ds| == |ops| + 1 && |answers| == |ops| && ds[0] == Dir(map[], map[])
    && forall i | 0 <= i < |ops| :: Does(hash, ds[i], ops[i], answers[i], ds[i + 1])
  }

  ghost predicate Does(hash: Bytes -> string, d: Dir, op: Op, answer: Result<string, UploadError>, d': Dir) {
    if op.Save? then Saves(hash, d, op, answer, d') else d' == d.(files := d.files - {op.file})
  }

  /** Every sidecar entry leads to a file. */
  predicate Live(d: Dir) {
    forall h <- d.sidecar :: d.sidecar[h] in d.files
  }

  /** Until it is removed a file keeps its bytes. */
  lemma {:induction false} NothingIsOverwritten(hash: Bytes -> string, ds: seq<Dir>, ops: seq<Op>,
                                                answers: seq<Result<string, UploadError>>, i: nat, j: nat, f: string)
    requires History(hash, ds, ops, answers) && i <= j < |ds| && f in ds[i].files
    requires forall k | i <= k < j :: ops[k] != Remove(f)
    ensures f in ds[j].files && ds[j].files[f] == ds[i].files[f]
  {
    if i < j {
      NothingIsOverwritten(hash, ds, ops, answers, i, j - 1, f);
      assert Does(hash, ds[j - 1], ops[j - 1], answers[j - 1], ds[j]);
    }
  }

  /** As long as nothing is removed, every entry leads to a file with the content it names. */
  lemma {:induction false} UploadsStayTruthful(hash: Bytes -> string, ds: seq<Dir>, ops: seq<Op>,
                                               answers: seq<Result<string, UploadError>>, i: nat)
    requires History(hash, ds, ops, answers) && i < |ds| && forall k | 0 <= k < i :: ops[k].Save?
    ensures Live(ds[i]) && Truthful(ds[i], hash)
  {
    if i > 0 {
      UploadsStayTruthful(hash, ds, ops, answers, i - 1);
      assert Does(hash, ds[i - 1], ops[i - 1], answers[i - 1], ds[i]);
    }
  }

  /** The bytes an upload leaves behind if it writes any. */
  function BytesOf(op: Op): Bytes
    requires op.Save?
  {
    if op.writing.Partial? then op.writing.kept else op.data
  }

  /** If the `i`-th step writes a file, no entry of other content is left on its name. */
  predicate WritesCleanly(hash: Bytes -> string, ds: seq<Dir>, ops: seq<Op>,
                          answers: seq<Result<string, UploadError>>, i: nat)
    requires i < |ops| == |answers| <= |ds|
  {
    ops[i].Save? && answers[i].Ok? && !ops[i].writing.Unopened? && !IsHit(ds[i], hash(ops[i].data)) ==>
      IsClean(ds[i], answers[i].value, hash(BytesOf(ops[i])))
  }

  lemma StepIsTruthfulIff(hash: Bytes -> string, ds: seq<Dir>, ops: seq<Op>,
                          answers: seq<Result<string, UploadError>>, i: nat)
    requires History(hash, ds, ops, answers) && i < |ops| && Truthful(ds[i], hash)
    ensures Truthful(ds[i + 1], hash) <==> WritesCleanly(hash, ds, ops, answers, i)
  {
    assert Does(hash, ds[i], ops[i], answers[i], ds[i + 1]);
    if ops[i].Save? && answers[i].Ok? && !IsHit(ds[i], hash(ops[i].data)) {
      StoringIsTruthfulIff(ds[i], hash, answers[i].value, ops[i].data);
      WritingIsTruthfulIff(ds[i], hash, answers[i].value, BytesOf(ops[i]));
      hide Truthful, IsClean, IsFirstFree, IsInside, IsHit;
    }
  }

  /** Over every history, removals and all: the sidecar is truthful throughout exactly when no write lands on a
      name that an entry of other content still leads to. */
  lemma {:induction false} StaysTruthfulIff(hash: Bytes -> string, ds: seq<Dir>, ops: seq<Op>,
                                            answers: seq<Result<string, UploadError>>, n: nat)
    requires History(hash, ds, ops, answers) && n <= |ops|
    ensures (forall i | 0 <= i <= n :: Truthful(ds[i], hash)) <==>
              forall i | 0 <= i < n :: WritesCleanly(hash, ds, ops, answers, i)
  {
    hide Truthful, WritesCleanly;
    if n == 0 {
      NothingIsTruthful(hash);
    } else {
      StaysTruthfulIff(hash, ds, ops, answers, n - 1);
      if forall i | 0 <= i < n :: Truthful(ds[i], hash) {
        StepIsTruthfulIff(hash, ds, ops, answers, n - 1);
      }
    }
  }

  lemma NothingIsTruthful(hash: Bytes -> string)
    ensures Truthful(Dir(map[], map[]), hash)
  {}

  /** After clean writes only, a file that an upload is answered by holds its bytes, or what could be written
      of them. */
  lemma AnswerHasTheBytes(hash: Bytes -> string, ds: seq<Dir>, ops: seq<Op>,
                          answers: seq<Result<string, UploadError>>, i: nat)
    requires Injective(hash) && History(hash, ds, ops, answers) && i < |ops| && ops[i].Save?
    requires forall k | 0 <= k < i :: WritesCleanly(hash, ds, ops, answers, k)
    requires answers[i].Ok? && answers[i].value in ds[i + 1].files
    ensures ds[i + 1].files[answers[i].value]
         == if IsHit(ds[i], hash(ops[i].data)) then ops[i].data else BytesOf(ops[i])
  {
    StaysTruthfulIff(hash, ds, ops, answers, i);
    assert Truthful(ds[i], hash) && Does(hash, ds[i], ops[i], answers[i], ds[i + 1]);
  }

  /** Where nothing is removed every write is clean. */
  lemma WithoutRemovalsWritesAreClean(hash: Bytes -> string, ds: seq<Dir>, ops: seq<Op>,
                                      answers: seq<Result<string, UploadError>>, n: nat)
    requires History(hash, ds, ops, answers) && n <= |ops| && forall k | 0 <= k < n :: ops[k].Save?
    ensures forall k | 0 <= k < n :: WritesCleanly(hash, ds, ops, answers, k)
  {
    hide Does, Truthful, WritesCleanly;
    forall k | 0 <= k <= n
      ensures Truthful(ds[k], hash)
    {
      UploadsStayTruthful(hash, ds, ops, answers, k);
    }
    StaysTruthfulIff(hash, ds, ops, answers, n);
  }

  /** As long as its file is not removed and all writes are clean, an upload that was written and recorded shares
      its file with a later one exactly when their bytes are the same. */
  lemma SameFileIffSameBytes(hash: Bytes -> string, ds: seq<Dir>, ops: seq<Op>,
                             answers: seq<Result<string, UploadError>>, i: nat, j: nat)
    requires Injective(hash) && History(hash, ds, ops, answers) && i < j < |ops| && ops[i].Save? && ops[j].Save?
    requires ops[i].writing == Complete(true) && answers[i].Ok?
    requires forall k | 0 <= k < j :: WritesCleanly(hash, ds, ops, answers, k)
    requires forall k | i < k < j :: ops[k] != Remove(answers[i].value)
    ensures answers[i] == answers[j] <==> ops[i].data == ops[j].data
  {
    EntryStays(hash, ds, ops, answers, i, j);
    StaysTruthfulIff(hash, ds, ops, answers, j);
    assert Truthful(ds[j], hash) && Does(hash, ds[j], ops[j], answers[j], ds[j + 1]);
    hide WritesCleanly, IsInside, SafeName;
    EntryIsTrue(ds[j], hash, hash(ops[i].data));
    EntryIsTrue(ds[j], hash, hash(ops[j].data));
  }

  lemma EntryIsTrue(d: Dir, hash: Bytes -> string, h: string)
    requires Truthful(d, hash)
    ensures IsHit(d, h) ==> hash(d.files[d.sidecar[h]]) == h
  {}

  lemma {:induction false} EntryStays(hash: Bytes -> string, ds: seq<Dir>, ops: seq<Op>,
                                      answers: seq<Result<string, UploadError>>, i: nat, j: nat)
    requires History(hash, ds, ops, answers) && i < j < |ds| && ops[i].Save?
    requires ops[i].writing == Complete(true) && answers[i].Ok?
    requires forall k | i < k < j :: ops[k] != Remove(answers[i].value)
    ensures hash(ops[i].data) in ds[j].sidecar && Ok(ds[j].sidecar[hash(ops[i].data)]) == answers[i]
    ensures answers[i].value in ds[j].files
  {
    assert Does(hash, ds[j - 1], ops[j - 1], answers[j - 1], ds[j]);
    if i < j - 1 {
      EntryStays(hash, ds, ops, answers, i, j - 1);
    }
  }

  /** What is stored where under a name that is free. */
  lemma FreeNameIsTaken(hash: Bytes -> string, d: Dir, name: string, data: Bytes)
    requires !IsHit(d, hash(data)) && name !in d.files && SafeName(name) == name != ".."
    ensures Saves(hash, d, Save(name, data, Complete(true)), Ok(name), Stored(d, name, data, hash(data)))
  {
    hide FileName, SafeName, IsInside, Decimal, SuffixAt;
    assert Candidate(name, 0) == name;
    hide Candidate;
    CandidatesStayInside(name, 0);
    assert IsFirstFree(d, name, name);
    hide IsFirstFree, IsHit;
  }

  /** A removed file leaves its entry behind: once its name is used again, uploading the first content
      again is answered with the second. */
  lemma RemovalCanMixUpUploads(hash: Bytes -> string, a: Bytes, b: Bytes)
    requires Injective(hash) && a != b
    ensures exists ds: seq<Dir>, ops: seq<Op>, answers: seq<Result<string, UploadError>> ::
              History(hash, ds, ops, answers) && |ops| == 4 && ops[3].Save? && ops[3].data == a
              && answers[3] == Ok("f") && "f" in ds[4].files && ds[4].files["f"] == b
  {
    var d0 := Dir(map[], map[]);
    var d1 := Stored(d0, "f", a, hash(a));
    var d2 := d1.(files := d1.files - {"f"});
    var d3 := Stored(d2, "f", b, hash(b));
    var ops := [Save("f", a, Complete(true)), Remove("f"), Save("f", b, Complete(true)), Save("f", a, Complete(true))];
    var ds, answers := [d0, d1, d2, d3, d3], [Ok("f"), Ok("f"), Ok("f"), Ok("f")];
    DirectoriesAreStripped("", "f");
    FreeNameIsTaken(hash, d0, "f", a);
    FreeNameIsTaken(hash, d2, "f", b);
    hide FileName, SafeName, IsInside, IsFirstFree;
    assert Does(hash, d0, ops[0], answers[0], d1) && Does(hash, d1, ops[1], answers[1], d2);
    assert Does(hash, d2, ops[2], answers[2], d3) && Does(hash, d3, ops[3], answers[3], d3);
    assert History(hash, ds, ops, answers);
  }
}
