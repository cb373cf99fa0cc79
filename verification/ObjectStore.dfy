/**
 * Object storage as plain files: a key's bytes are written once, whoever
 * races to write them, and a public URL and its location determine each
 * other.
 */
module ObjectStore {
  import opened Wrappers

  type Bytes = seq<nat>
  type Digest = nat

  datatype Location = Location(bucket: string, key: string)

  // ---------------------------------------------------------------------------
  // Locations and URLs
  // ---------------------------------------------------------------------------

  predicate Alphanumeric(c: char) { 'A' <= c <= 'Z' || 'a' <= c <= 'z' || '0' <= c <= '9' }

  /** No dot-files, no traversal, nothing empty. */
  predicate Segment(s: string) {
    && s != "" && Alphanumeric(s[0])
    && forall i :: 0 <= i < |s| ==> Alphanumeric(s[i]) || s[i] == '.' || s[i] == '_' || s[i] == '-'
  }

  /** Letters and digits, by their codes. */
  predicate LetterCode(c: int) { 65 <= c <= 90 || 97 <= c <= 122 || 48 <= c <= 57 }

  /** What a bucket, and each part of a key, may look like: letters and digits, and after the first also . _ and -. */
  lemma SegmentWhen(s: string)
    ensures Segment(s) <==>
            && |s| > 0 && LetterCode(s[0] as int)
            && forall i :: 0 <= i < |s| ==> LetterCode(s[i] as int) || s[i] as int in {45, 46, 95}
  {
    if |s| > 0 && LetterCode(s[0] as int)
       && forall i :: 0 <= i < |s| ==> LetterCode(s[i] as int) || s[i] as int in {45, 46, 95} {
      forall i | 0 <= i < |s|
        ensures Alphanumeric(s[i]) || s[i] == '.' || s[i] == '_' || s[i] == '-'
      {
        assert LetterCode(s[i] as int) || s[i] as int in {45, 46, 95};
      }
    }
  }

  /** The parts of a text between its slashes. */
  function Split(s: string): (parts: seq<string>)
    ensures parts != []
  {
    if s == "" then [""]
    else
      var rest := Split(s[1..]);
      if s[0] == '/' then [""] + rest else [[s[0]] + rest[0]] + rest[1..]
  }

  function Join(parts: seq<string>): string {
    if parts == [] then ""
    else if |parts| == 1 then parts[0]
    else parts[0] + "/" + Join(parts[1..])
  }

  predicate Valid(l: Location) {
    Segment(l.bucket) && l.key != "" && forall i :: 0 <= i < |Split(l.key)| ==> Segment(Split(l.key)[i])
  }

  /** A URL: its origin, and its path up to any query. */
  datatype Url = Url(origin: string, path: string)

  /** The path of a location under a store's base path. */
  function PathOf(basePath: string, l: Location): string { basePath + "/" + l.bucket + "/" + l.key }

  function UrlFor(origin: string, basePath: string, l: Location): Option<Url> {
    if Valid(l) then Some(Url(origin, PathOf(basePath, l))) else None
  }

  /** `decodeURIComponent`, which refuses some texts. */
  type Decoder = string -> Option<string>

  predicate StartsWith(s: string, prefix: string) { |prefix| <= |s| && s[..|prefix|] == prefix }

  function Locate(decode: Decoder, basePath: string, url: Url): Option<Location> {
    var decoded := decode(url.path);
    if decoded.None? || !StartsWith(decoded.value, basePath + "/") then None
    else
      var parts := Split(decoded.value[|basePath| + 1..]);
      var l := Location(parts[0], Join(parts[1..]));
      if Valid(l) then Some(l) else None
  }

  lemma {:induction false} JoinSplit(s: string)
    ensures Join(Split(s)) == s
    ensures forall i :: 0 <= i < |Split(s)| ==> '/' !in Split(s)[i]
  {
    if s != "" {
      JoinSplit(s[1..]);
      var rest := Split(s[1..]);
      if s[0] == '/' {
        var parts := [""] + rest;
        assert parts[1..] == rest;
        assert s == "" + "/" + s[1..];
      } else {
        var parts := [[s[0]] + rest[0]] + rest[1..];
        assert parts[1..] == rest[1..];
        if |rest| > 1 {
          assert s == [s[0]] + (rest[0] + "/" + Join(rest[1..]));
        } else {
          assert s == [s[0]] + rest[0];
        }
      }
    }
  }

  /** Text before the first slash is the first part. */
  lemma {:induction false} SplitAtSlash(a: string, b: string)
    requires '/' !in a
    ensures Split(a + "/" + b) == [a] + Split(b)
  {
    var s := a + "/" + b;
    if a == "" {
      assert s[1..] == b;
    } else {
      SplitAtSlash(a[1..], b);
      assert s[1..] == a[1..] + "/" + b && s[0] == a[0];
      assert a == [a[0]] + a[1..];
    }
  }

  lemma SplitLocation(l: Location)
    requires Valid(l)
    ensures Split(l.bucket + "/" + l.key) == [l.bucket] + Split(l.key)
  {
    SplitAtSlash(l.bucket, l.key);
  }

  /** A URL is located exactly where its decoded path says, whatever its origin. */
  lemma LocatesItsPath(decode: Decoder, basePath: string, url: Url, l: Location)
    ensures Locate(decode, basePath, url) == Some(l) <==> Valid(l) && decode(url.path) == Some(PathOf(basePath, l))
  {
    if Valid(l) && decode(url.path) == Some(PathOf(basePath, l)) {
      var tail := l.bucket + "/" + l.key;
      assert PathOf(basePath, l) == (basePath + "/") + tail;
      assert PathOf(basePath, l)[|basePath| + 1..] == tail;
      SplitLocation(l);
      JoinSplit(l.key);
      assert ([l.bucket] + Split(l.key))[1..] == Split(l.key);
    }
    if Locate(decode, basePath, url) == Some(l) {
      var path := decode(url.path).value;
      var tail := path[|basePath| + 1..];
      var parts := Split(tail);
      JoinSplit(tail);
      assert |parts| > 1;
      assert path == path[..|basePath| + 1] + tail;
      assert path == (basePath + "/") + (l.bucket + "/" + l.key);
      assert PathOf(basePath, l) == path;
    }
  }

  /** Decoding leaves text without percent signs alone. */
  ghost predicate LeavesPlainText(decode: Decoder) { forall s :: '%' !in s ==> decode(s) == Some(s) }

  /** Under a base path free of percent signs, locating undoes addressing for every valid location. */
  lemma LocateUndoesUrlFor(decode: Decoder, origin: string, basePath: string, l: Location)
    requires LeavesPlainText(decode) && '%' !in basePath && Valid(l)
    ensures UrlFor(origin, basePath, l).Some? && Locate(decode, basePath, UrlFor(origin, basePath, l).value) == Some(l)
  {
    PlainPath(basePath, l);
    LocatesItsPath(decode, basePath, Url(origin, PathOf(basePath, l)), l);
  }

  lemma PlainPath(basePath: string, l: Location)
    requires Valid(l) && '%' !in basePath
    ensures '%' !in PathOf(basePath, l)
  {
    JoinSplit(l.key);
    PlainJoin(Split(l.key));
  }

  lemma {:induction false} PlainJoin(parts: seq<string>)
    requires forall i :: 0 <= i < |parts| ==> Segment(parts[i])
    ensures '%' !in Join(parts)
  {
    if |parts| > 1 {
      PlainJoin(parts[1..]);
    }
  }

  /**
   * A base path with an encoded character loses its own objects: its decoded URL is
   * looked for under the encoded path.
   */
  lemma EncodedBaseIsLost(decode: Decoder, origin: string, l: Location)
    requires Valid(l) && decode(PathOf("/my%20files", l)) == Some(PathOf("/my files", l))
    ensures Locate(decode, "/my%20files", Url(origin, PathOf("/my%20files", l))) == None
  {
    DifferAt(PathOf("/my files", l), "/my%20files" + "/", 3);
  }

  /** What one writer's URL gives back, under any base path: the place itself exactly when its path decodes to itself. */
  lemma RoundTripWhen(decode: Decoder, origin: string, basePath: string, l: Location)
    requires Valid(l)
    ensures UrlFor(origin, basePath, l).Some?
    ensures Locate(decode, basePath, UrlFor(origin, basePath, l).value) == Some(l)
            <==> decode(PathOf(basePath, l)) == Some(PathOf(basePath, l))
  {
    LocatesItsPath(decode, basePath, Url(origin, PathOf(basePath, l)), l);
  }

  /** Percent decoding: plain text stays, and every escape it can read becomes shorter. */
  ghost predicate DecodesEscapes(decode: Decoder) {
    LeavesPlainText(decode) && forall s :: '%' in s && decode(s).Some? ==> |decode(s).value| < |s|
  }

  /** So a base path serves every place when it holds no percent sign, and no place at all when it does. */
  lemma BaseServesWhenPlain(decode: Decoder, origin: string, basePath: string, l: Location)
    requires DecodesEscapes(decode) && Valid(l)
    ensures UrlFor(origin, basePath, l).Some?
    ensures Locate(decode, basePath, UrlFor(origin, basePath, l).value) == Some(l) <==> '%' !in basePath
  {
    RoundTripWhen(decode, origin, basePath, l);
    if '%' in basePath {
      assert PathOf(basePath, l)[..|basePath|] == basePath;
      assert '%' in PathOf(basePath, l);
    } else {
      PlainPath(basePath, l);
    }
  }

  lemma DifferAt(s: string, prefix: string, k: nat)
    requires k < |s| && k < |prefix| && s[k] != prefix[k]
    ensures !StartsWith(s, prefix)
  {
    if |prefix| <= |s| {
      assert s[..|prefix|][k] == s[k];
    }
  }

  // ---------------------------------------------------------------------------
  // Write-once files
  // ---------------------------------------------------------------------------

  type Files = map<Location, Bytes>

  /** A writer's bytes are in a temporary file of its own until it links them in place. */
  datatype Stage = Writing | Linking | Comparing | Created | AlreadyThere | Conflict

  datatype Writer = Writer(at: Location, bytes: Bytes, stage: Stage)

  datatype Sys = Sys(files: Files, writers: seq<Writer>)

  predicate Finished(w: Writer) { w.stage in {Created, AlreadyThere, Conflict} }

  /** The next file operation of writer `i`: linking refuses a target that exists. */
  function Step(hash: Bytes -> Digest, s: Sys, i: nat): Sys {
    if i >= |s.writers| then s
    else
      var w := s.writers[i];
      match w.stage
      case Writing => s.(writers := s.writers[i := w.(stage := Linking)])
      case Linking =>
        if w.at in s.files then s.(writers := s.writers[i := w.(stage := Comparing)])
        else Sys(s.files[w.at := w.bytes], s.writers[i := w.(stage := Created)])
      case Comparing =>
        var same := w.at in s.files && hash(s.files[w.at]) == hash(w.bytes);
        s.(writers := s.writers[i := w.(stage := if same then AlreadyThere else Conflict)])
      case _ => s
  }

  /** File operations a writer has still to make, at most. */
  function StepsLeft(w: Writer): nat {
    match w.stage
    case Writing => 3
    case Linking => 2
    case Comparing => 1
    case _ => 0
  }

  /** No writer waits for another: each operation of an unfinished one brings its end nearer, and moves no other. */
  lemma EveryStepCounts(hash: Bytes -> Digest, s: Sys, i: nat)
    requires i < |s.writers| && !Finished(s.writers[i])
    ensures var t := Step(hash, s, i);
            && |t.writers| == |s.writers| && StepsLeft(t.writers[i]) < StepsLeft(s.writers[i])
            && t.writers[i].at == s.writers[i].at && t.writers[i].bytes == s.writers[i].bytes
            && forall k :: 0 <= k < |s.writers| && k != i ==> t.writers[k] == s.writers[k]
  {
  }

  function Run(hash: Bytes -> Digest, s: Sys, schedule: seq<nat>): Sys
    decreases |schedule|
  {
    if schedule == [] then s
    else Step(hash, Run(hash, s, schedule[..|schedule| - 1]), schedule[|schedule| - 1])
  }

  predicate Start(s: Sys) { forall i :: 0 <= i < |s.writers| ==> s.writers[i].stage == Writing }

  /** What each writer's stage says of the file, which had `was` when the writers started. */
  predicate WriterOk(hash: Bytes -> Digest, was: Files, files: Files, w: Writer) {
    match w.stage
    case Writing => true
    case Linking => true
    case Comparing => w.at in files
    case Created => w.at !in was && w.at in files && files[w.at] == w.bytes
    case AlreadyThere => w.at in files && hash(files[w.at]) == hash(w.bytes)
    case Conflict => w.at in files && hash(files[w.at]) != hash(w.bytes)
  }

  predicate WritersOk(hash: Bytes -> Digest, was: Files, s: Sys) {
    forall i :: 0 <= i < |s.writers| ==> WriterOk(hash, was, s.files, s.writers[i])
  }

  /** No file is changed or removed. */
  predicate Grows(was: Files, files: Files) { forall l :: l in was ==> l in files && files[l] == was[l] }

  predicate OneCreatorEach(s: Sys) {
    forall i, j :: 0 <= i < j < |s.writers| && s.writers[i].stage == s.writers[j].stage == Created ==>
                     s.writers[i].at != s.writers[j].at
  }

  predicate Creates(w: Writer, l: Location) { w.stage == Created && w.at == l }

  /** Every new file has its creator. */
  ghost predicate HaveCreators(was: Files, s: Sys) {
    forall l :: l in s.files && l !in was ==> exists i :: 0 <= i < |s.writers| && Creates(s.writers[i], l)
  }

  ghost predicate Inv(hash: Bytes -> Digest, was: Files, s: Sys) {
    Grows(was, s.files) && WritersOk(hash, was, s) && OneCreatorEach(s) && HaveCreators(was, s)
  }

  /** Every writer offers what it offered. */
  predicate SameOffers(s: Sys, t: Sys) {
    |s.writers| == |t.writers|
    && forall i :: 0 <= i < |s.writers| ==> s.writers[i].at == t.writers[i].at && s.writers[i].bytes == t.writers[i].bytes
  }

  lemma StepGrows(hash: Bytes -> Digest, s: Sys, i: nat)
    ensures Grows(s.files, Step(hash, s, i).files) && SameOffers(s, Step(hash, s, i))
  {
  }

  lemma StepKeepsWriters(hash: Bytes -> Digest, was: Files, s: Sys, i: nat)
    requires Grows(was, s.files) && WritersOk(hash, was, s)
    ensures WritersOk(hash, was, Step(hash, s, i))
  {
    var t := Step(hash, s, i);
    StepGrows(hash, s, i);
    forall j | 0 <= j < |t.writers|
      ensures WriterOk(hash, was, t.files, t.writers[j])
    {
      assert WriterOk(hash, was, s.files, s.writers[j]);
    }
  }

  lemma StepKeepsCreators(hash: Bytes -> Digest, was: Files, s: Sys, i: nat)
    requires WritersOk(hash, was, s) && OneCreatorEach(s) && HaveCreators(was, s)
    ensures OneCreatorEach(Step(hash, s, i)) && HaveCreators(was, Step(hash, s, i))
  {
    StepKeepsOneCreator(hash, was, s, i);
    var t := Step(hash, s, i);
    forall l | l in t.files && l !in was
      ensures exists j :: 0 <= j < |t.writers| && Creates(t.writers[j], l)
    {
      if l in s.files {
        var j :| 0 <= j < |s.writers| && Creates(s.writers[j], l);
        assert t.writers[j] == s.writers[j];
      } else {
        assert Creates(t.writers[i], l);
      }
    }
  }

  lemma StepKeepsOneCreator(hash: Bytes -> Digest, was: Files, s: Sys, i: nat)
    requires WritersOk(hash, was, s) && OneCreatorEach(s)
    ensures OneCreatorEach(Step(hash, s, i))
  {
    var t := Step(hash, s, i);
    forall j, k | 0 <= j < k < |t.writers| && t.writers[j].stage == t.writers[k].stage == Created
      ensures t.writers[j].at != t.writers[k].at
    {
      assert WriterOk(hash, was, s.files, s.writers[j]) && WriterOk(hash, was, s.files, s.writers[k]);
    }
  }

  lemma StepKeeps(hash: Bytes -> Digest, was: Files, s: Sys, i: nat)
    requires Inv(hash, was, s)
    ensures Inv(hash, was, Step(hash, s, i))
  {
    StepGrows(hash, s, i);
    StepKeepsWriters(hash, was, s, i);
    StepKeepsCreators(hash, was, s, i);
  }

  lemma {:induction false} RunKeeps(hash: Bytes -> Digest, s: Sys, schedule: seq<nat>)
    requires Start(s)
    ensures Inv(hash, s.files, Run(hash, s, schedule)) && SameOffers(s, Run(hash, s, schedule))
  {
    if schedule != [] {
      var before := schedule[..|schedule| - 1];
      RunKeeps(hash, s, before);
      StepKeeps(hash, s.files, Run(hash, s, before), schedule[|schedule| - 1]);
      StepGrows(hash, Run(hash, s, before), schedule[|schedule| - 1]);
    }
  }

  /** Once linked, a key's bytes are the same at every later point of every run. */
  lemma {:induction false} WrittenOnce(hash: Bytes -> Digest, s: Sys, schedule: seq<nat>, more: seq<nat>)
    ensures Grows(Run(hash, s, schedule).files, Run(hash, s, schedule + more).files)
    decreases |more|
  {
    if more == [] {
      assert schedule + more == schedule;
    } else {
      var all, fewer := schedule + more, more[..|more| - 1];
      assert all[..|all| - 1] == schedule + fewer;
      WrittenOnce(hash, s, schedule, fewer);
      StepGrows(hash, Run(hash, s, schedule + fewer), more[|more| - 1]);
    }
  }

  /**
   * Of the writers of a key that was not there, one creates it as soon as any
   * of them finishes, and the others succeed exactly when their digest is
   * that of the bytes it wrote. Of a key that was there, none creates it.
   */
  lemma OneWriterCreates(hash: Bytes -> Digest, s: Sys, schedule: seq<nat>, i: nat)
    requires Start(s) && i < |Run(hash, s, schedule).writers| && Finished(Run(hash, s, schedule).writers[i])
    ensures var t := Run(hash, s, schedule);
            && |t.writers| == |s.writers| && t.writers[i].at == s.writers[i].at && s.writers[i].at in t.files
            && (s.writers[i].at in s.files ==>
                  t.files[s.writers[i].at] == s.files[s.writers[i].at] && t.writers[i].stage != Created)
            && (s.writers[i].at !in s.files ==>
                  exists c :: 0 <= c < |s.writers| && OnlyCreator(s, t, s.writers[i].at, c))
            && (t.writers[i].stage != Created ==>
                  (t.writers[i].stage == AlreadyThere <==> hash(s.writers[i].bytes) == hash(t.files[s.writers[i].at])))
  {
    RunKeeps(hash, s, schedule);
    var t := Run(hash, s, schedule);
    var l := s.writers[i].at;
    assert WriterOk(hash, s.files, t.files, t.writers[i]);
    if l !in s.files {
      var c :| 0 <= c < |t.writers| && Creates(t.writers[c], l);
      assert WriterOk(hash, s.files, t.files, t.writers[c]);
      assert OnlyCreator(s, t, l, c);
    }
  }

  /** Writer `c` created the file at `l`, with its bytes, and nobody else did. */
  predicate OnlyCreator(s: Sys, t: Sys, l: Location, c: nat)
    requires c < |s.writers| == |t.writers|
  {
    && s.writers[c].at == l && l in t.files && t.files[l] == s.writers[c].bytes
    && forall j :: 0 <= j < |t.writers| ==> (Creates(t.writers[j], l) <==> j == c)
  }

  class FileObjectStore {
    var files: Files

    constructor ()
      ensures files == map[]
    {
      files := map[];
    }

    /** `rival` is what another writer links at the same place just before this one does. */
    method Put(hash: Bytes -> Digest, at: Location, buffer: Bytes, rival: Option<Bytes>) returns (outcome: Option<Stage>)
      modifies this
      ensures !Valid(at) ==> outcome == None && files == old(files)
      ensures Valid(at) ==> outcome.Some?
      ensures forall l :: l in old(files) ==> l in files && files[l] == old(files)[l]
      ensures Valid(at) ==>
                at in files && files - {at} == old(files) - {at}
                && files[at] == (if at in old(files) then old(files)[at] else rival.GetOr(buffer))
                && (outcome.value == Created <==> at !in old(files) && rival == None)
                && (outcome.value == AlreadyThere <==>
                      (at in old(files) || rival.Some?) && hash(files[at]) == hash(buffer))
                && (outcome.value == Conflict <==> hash(files[at]) != hash(buffer))
    {
      if !Valid(at) { return None; }
      if rival.Some? && at !in files {
        files := files[at := rival.value];
      }
      if at !in files {
        files := files[at := buffer];
        return Some(Created);
      }
      if hash(files[at]) != hash(buffer) { return Some(Conflict); }
      return Some(AlreadyThere);
    }
  }
}
