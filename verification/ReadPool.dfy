/**
 Reading many files with a fixed number of concurrent workers that share one counter.
 A worker runs undisturbed between two awaits, so a run is a sequence of worker turns.
 */
module ReadPool {
  import opened Wrappers

  const FILE_READ_CONCURRENCY: nat := 24

  datatype File = File(relativePath: string, source: string)

  // A worker about to take an index, awaiting the read of one, or returned.
  datatype Worker = Ready | Reading(index: nat) | Finished

  // The worker and the value of the shared counter it took.
  datatype Claim = Claim(worker: nat, index: nat)

  // Reading a path may fail, and may depend on the position it is read for.
  type Reader = (nat, string) -> Option<string>

  function Entry(paths: seq<string>, read: Reader, relative: string -> string, i: nat): Option<File>
    requires i < |paths|
  {
    if paths[i] == "" then None
    else
      match read(i, paths[i])
      case None => None
      case Some(source) => Some(File(relative(paths[i]), source))
  }

  // Reading the paths one after the other, leaving out empty paths and failed reads.
  function ReadInOrder(paths: seq<string>, read: Reader, relative: string -> string, n: nat): seq<File>
    requires n <= |paths|
  {
    if n == 0 then []
    else
      var before := ReadInOrder(paths, read, relative, n - 1);
      match Entry(paths, read, relative, n - 1)
      case None => before
      case Some(file) => before + [file]
  }

  // Path i has a name and can be read.
  predicate Readable(paths: seq<string>, read: Reader, i: int) {
    0 <= i < |paths| && paths[i] != "" && read(i, paths[i]).Some?
  }

  predicate Ascending(from: seq<nat>) {
    forall k, l | 0 <= k < l < |from| :: from[k] < from[l]
  }

  // The files are those of exactly the readable paths, in their order, each with its relative
  // path and the source that was read.
  lemma {:induction false} FilesAre(paths: seq<string>, read: Reader, relative: string -> string, n: nat)
    returns (from: seq<nat>)
    requires n <= |paths|
    ensures
      var files := ReadInOrder(paths, read, relative, n);
      && |files| == |from| && Ascending(from)
      && (forall i: nat :: i in from <==> i < n && Readable(paths, read, i))
      && forall k | 0 <= k < |from| ::
           && Readable(paths, read, from[k])
           && files[k] == File(relative(paths[from[k]]), read(from[k], paths[from[k]]).value)
  {
    from := [];
    if n > 0 {
      from := FilesAre(paths, read, relative, n - 1);
      if Readable(paths, read, n - 1) {
        assert forall k | 0 <= k < |from| :: from[k] in from;
        from := from + [n - 1];
      }
    }
  }

  function Weight(workers: seq<Worker>): nat {
    if workers == [] then 0
    else Weight(workers[1..]) + match workers[0] case Ready => 1 case Reading(_) => 2 case Finished => 0
  }

  function FinishedCount(workers: seq<Worker>): nat {
    if workers == [] then 0 else FinishedCount(workers[1..]) + if workers[0] == Finished then 1 else 0
  }

  lemma {:induction false} UpdateCounts(workers: seq<Worker>, w: nat, next: Worker)
    requires w < |workers|
    ensures Weight(workers[w := next]) == Weight(workers) - Weight([workers[w]]) + Weight([next])
    ensures FinishedCount(workers[w := next])
         == FinishedCount(workers) - FinishedCount([workers[w]]) + FinishedCount([next])
  {
    if w > 0 {
      assert workers[w := next][1..] == workers[1..][w - 1 := next];
      UpdateCounts(workers[1..], w - 1, next);
    } else {
      assert workers[w := next][1..] == workers[1..];
    }
  }

  lemma {:induction false} AllFinished(workers: seq<Worker>)
    requires forall w | 0 <= w < |workers| :: workers[w] == Finished
    ensures FinishedCount(workers) == |workers|
  {
    if workers != [] {
      AllFinished(workers[1..]);
    }
  }

  lemma {:induction false} NoneFinished(n: nat)
    ensures FinishedCount(seq(n, _ => Ready)) == 0
  {
    if n > 0 {
      assert seq(n, _ => Ready)[1..] == seq(n - 1, _ => Ready);
      NoneFinished(n - 1);
    }
  }

  // What the pool has done so far: the counter hands out 0, 1, 2, ..., nobody reads an index
  // somebody else reads, and exactly the claimed indices nobody is reading have their entry.
  ghost predicate Progress(paths: seq<string>, read: Reader, relative: string -> string, nextIndex: nat,
                           workers: seq<Worker>, output: seq<Option<File>>, claims: seq<Claim>) {
    && |output| == |paths|
    && |claims| == nextIndex
    && (forall k | 0 <= k < nextIndex :: claims[k].index == k && claims[k].worker < |workers|)
    && (if nextIndex <= |paths| then FinishedCount(workers) == 0 else nextIndex == |paths| + FinishedCount(workers))
    && (forall w | 0 <= w < |workers| && workers[w].Reading? ::
          && workers[w].index < |paths| && workers[w].index < nextIndex && paths[workers[w].index] != ""
          && claims[workers[w].index].worker == w
          && output[workers[w].index].None?)
    && (forall i | 0 <= i < |paths| && i >= nextIndex :: output[i].None?)
    && (forall i | 0 <= i < |paths| && i < nextIndex ::
          output[i] == Entry(paths, read, relative, i)
          || exists w :: 0 <= w < |workers| && workers[w] == Reading(i))
  }

  // No run takes more turns than this from here.
  function TurnsLeft(paths: seq<string>, nextIndex: nat, workers: seq<Worker>): nat {
    2 * (if nextIndex < |paths| then |paths| - nextIndex else 0) + Weight(workers)
  }

  // For every order in which the workers take their turns, the pool terminates, hands out
  // every index exactly once, and returns what reading the paths in order returns.
  method ReadRuntimeSourceFiles(paths: seq<string>, read: Reader, relative: string -> string)
    returns (files: seq<File>, ghost claims: seq<Claim>)
    ensures files == ReadInOrder(paths, read, relative, |paths|)
    ensures |claims| > |paths| && forall k | 0 <= k < |claims| :: claims[k].index == k
    ensures forall k | 0 <= k < |claims| :: claims[k].worker < 24 && claims[k].worker <= |paths|
  {
    var output := new Option<File>[|paths|](_ => None);
    var nextIndex := 0;
    claims := [];
    var size := if |paths| < 1 then 1 else if |paths| < FILE_READ_CONCURRENCY then |paths| else FILE_READ_CONCURRENCY;
    var workers := seq(size, _ => Ready);
    NoneFinished(size);
    while exists w :: 0 <= w < |workers| && workers[w] != Finished
      invariant |workers| == size && fresh(output)
      invariant Progress(paths, read, relative, nextIndex, workers, output[..], claims)
      decreases TurnsLeft(paths, nextIndex, workers)
    {
      var w :| 0 <= w < |workers| && workers[w] != Finished;
      match workers[w] {
        case Ready =>
          var index := nextIndex;
          nextIndex := nextIndex + 1;
          claims := claims + [Claim(w, index)];
          var next := if index >= |paths| then Finished else if paths[index] == "" then Ready else Reading(index);
          ClaimKeepsProgress(paths, read, relative, index, workers, output[..], claims[..index], w, next);
          workers := workers[w := next];
        case Reading(index) =>
          ghost var before := output[..];
          match read(index, paths[index]) {
            case None =>
            case Some(source) => output[index] := Some(File(relative(paths[index]), source));
          }
          assert output[..] == before[index := Entry(paths, read, relative, index)];
          ReadKeepsProgress(paths, read, relative, nextIndex, workers, before, claims, w);
          workers := workers[w := Ready];
      }
    }
    AllFinished(workers);
    files := KeepDefined(output, paths, read, relative);
  }

  // Leaving out the entries that were never written.
  method KeepDefined(output: array<Option<File>>, ghost paths: seq<string>, ghost read: Reader,
                     ghost relative: string -> string)
    returns (files: seq<File>)
    requires output.Length == |paths|
    requires forall i | 0 <= i < |paths| :: output[..][i] == Entry(paths, read, relative, i)
    ensures files == ReadInOrder(paths, read, relative, |paths|)
  {
    files := [];
    for i := 0 to output.Length
      invariant files == ReadInOrder(paths, read, relative, i)
    {
      assert output[..][i] == Entry(paths, read, relative, i);
      if output[i].Some? {
        files := files + [output[i].value];
      }
    }
  }

  lemma ClaimKeepsProgress(paths: seq<string>, read: Reader, relative: string -> string, index: nat,
                           workers: seq<Worker>, output: seq<Option<File>>, claims: seq<Claim>, w: nat, next: Worker)
    requires Progress(paths, read, relative, index, workers, output, claims)
    requires w < |workers| && workers[w] == Ready
    requires next == if index >= |paths| then Finished else if paths[index] == "" then Ready else Reading(index)
    ensures Progress(paths, read, relative, index + 1, workers[w := next], output, claims + [Claim(w, index)])
    ensures TurnsLeft(paths, index + 1, workers[w := next]) < TurnsLeft(paths, index, workers)
  {
    UpdateCounts(workers, w, next);
    var workers' := workers[w := next];
    forall i | 0 <= i < |paths| && i < index + 1
      ensures || output[i] == Entry(paths, read, relative, i)
              || exists v :: 0 <= v < |workers'| && workers'[v] == Reading(i)
    {
      if i == index {
        assert workers'[w] == next;
      } else if output[i] != Entry(paths, read, relative, i) {
        var v :| 0 <= v < |workers| && workers[v] == Reading(i);
        assert workers'[v] == Reading(i);
      }
    }
  }

  lemma ReadKeepsProgress(paths: seq<string>, read: Reader, relative: string -> string, nextIndex: nat,
                          workers: seq<Worker>, output: seq<Option<File>>, claims: seq<Claim>, w: nat)
    requires Progress(paths, read, relative, nextIndex, workers, output, claims)
    requires w < |workers| && workers[w].Reading?
    ensures workers[w].index < |paths| && workers[w].index < |output|
    ensures Progress(paths, read, relative, nextIndex, workers[w := Ready],
                     output[workers[w].index := Entry(paths, read, relative, workers[w].index)], claims)
    ensures TurnsLeft(paths, nextIndex, workers[w := Ready]) < TurnsLeft(paths, nextIndex, workers)
  {
    UpdateCounts(workers, w, Ready);
    var index := workers[w].index;
    var workers', output' := workers[w := Ready], output[index := Entry(paths, read, relative, index)];
    forall i | 0 <= i < |paths| && i < nextIndex
      ensures || output'[i] == Entry(paths, read, relative, i)
              || exists v :: 0 <= v < |workers'| && workers'[v] == Reading(i)
    {
      if i != index && output[i] != Entry(paths, read, relative, i) {
        var v :| 0 <= v < |workers| && workers[v] == Reading(i);
        assert workers'[v] == Reading(i);
      }
    }
  }
}
