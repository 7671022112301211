/** The emulated decoder: one line of arithmetic that turns arrival times and look-up decode times
  * into completion times, as if a device with one unit served the requests in order.
  */
module EmulatedDecoder {
  import opened Options

  /** A request: when it arrives and how long the device works on it. */
  datatype Job = Job(arrival: real, service: real)

  function Max(x: real, y: real): real { if x >= y then x else y }

  /** When the device is free again after these jobs, in order. */
  function Completion(init: real, jobs: seq<Job>): real {
    if jobs == [] then init
    else
      var last := jobs[|jobs| - 1];
      Max(Completion(init, jobs[..|jobs| - 1]), last.arrival) + last.service
  }

  datatype DecodeError = WrongExtension | NotProfiled

  class EmDecoder {
    const ext: string
    const lut: map<string, real>
    var nextAvailableTime: real

    constructor (ext: string, lut: map<string, real>, initTime: real)
      ensures this.ext == ext && this.lut == lut && nextAvailableTime == initTime
    {
      this.ext, this.lut, nextAvailableTime := ext, lut, initTime;
    }

    predicate HasExtension(path: string) {
      |ext| <= |path| && path[|path| - |ext|..] == ext
    }

    /** If the decoder has served `done` so far, it has served one more job afterwards. Either
      * error leaves it as it was. */
    method Decode(arrival: real, path: string, ghost init: real, ghost done: seq<Job>) returns (eta: Result<real, DecodeError>)
      requires nextAvailableTime == Completion(init, done)
      modifies this
      ensures eta == Err(WrongExtension) <==> !(|ext| <= |path| && path[|path| - |ext|..] == ext)
      ensures eta.Ok? <==> HasExtension(path) && path in lut
      ensures eta.Err? ==>
        && nextAvailableTime == old(nextAvailableTime)
        && eta.error == if HasExtension(path) then NotProfiled else WrongExtension
      ensures eta.Ok? ==>
        eta.value == nextAvailableTime == Completion(init, done + [Job(arrival, lut[path])])
    {
      if !HasExtension(path) {
        return Err(WrongExtension);
      }
      var startTime := Max(nextAvailableTime, arrival);
      if path !in lut {
        return Err(NotProfiled);
      }
      var end := startTime + lut[path];
      nextAvailableTime := end;
      assert (done + [Job(arrival, lut[path])])[..|done|] == done;
      return Ok(end);
    }
  }

  // ----- The closed form -----

  /** Work from job k on. */
  function Work(jobs: seq<Job>, k: nat): real
    requires k <= |jobs|
    decreases |jobs|
  {
    if k == |jobs| then 0.0 else Work(jobs[..|jobs| - 1], k) + jobs[|jobs| - 1].service
  }

  /** The device starts its last busy period with job k, or has been busy since `init`. */
  predicate BusySince(init: real, jobs: seq<Job>, k: nat) {
    k < |jobs| && Completion(init, jobs) == jobs[k].arrival + Work(jobs, k)
  }

  /** The completion is the greatest of `init` plus all work and, over every k, the arrival of job k
    * plus the work from k on. */
  lemma {:induction false} ClosedForm(init: real, jobs: seq<Job>)
    ensures Completion(init, jobs) >= init + Work(jobs, 0)
    ensures forall k :: 0 <= k < |jobs| ==> Completion(init, jobs) >= jobs[k].arrival + Work(jobs, k)
    ensures Completion(init, jobs) == init + Work(jobs, 0) || exists k :: BusySince(init, jobs, k)
    decreases |jobs|
  {
    if jobs != [] {
      var n := |jobs| - 1;
      var front := jobs[..n];
      ClosedForm(init, front);
      assert Work(front, n) == 0.0;
      forall k | 0 <= k < |jobs|
        ensures Completion(init, jobs) >= jobs[k].arrival + Work(jobs, k)
      {
        if k < n {
          assert front[k] == jobs[k] && Completion(init, front) >= front[k].arrival + Work(front, k);
        }
      }
      if Completion(init, front) < jobs[n].arrival {
        assert BusySince(init, jobs, n);
      } else if k :| BusySince(init, front, k) {
        assert BusySince(init, jobs, k);
      }
    }
  }

  function StartOf(init: real, jobs: seq<Job>, k: nat): real
    requires k < |jobs|
  {
    Completion(init, jobs[..k + 1]) - jobs[k].service
  }

  /** Busy intervals are in the order of the jobs and do not overlap; none starts before its job
    * arrives, and the device never idles while a job is waiting. */
  lemma {:induction false} BusyIntervalsDisjoint(init: real, jobs: seq<Job>, i: nat, j: nat)
    requires i < j < |jobs|
    requires forall k :: 0 <= k < |jobs| ==> jobs[k].service >= 0.0
    ensures Completion(init, jobs[..i + 1]) <= StartOf(init, jobs, j)
    ensures jobs[j].arrival <= StartOf(init, jobs, j)
    ensures StartOf(init, jobs, j) == Completion(init, jobs[..j]) || StartOf(init, jobs, j) == jobs[j].arrival
    decreases j
  {
    assert jobs[..j + 1][..j] == jobs[..j];
    if i < j - 1 {
      BusyIntervalsDisjoint(init, jobs, i, j - 1);
    }
  }

  /** The same services, with every arrival delayed by something between zero and d. */
  predicate Delayed(jobs: seq<Job>, later: seq<Job>, d: real) {
    && |later| == |jobs|
    && forall k :: 0 <= k < |jobs| ==>
      later[k].service == jobs[k].service && jobs[k].arrival <= later[k].arrival <= jobs[k].arrival + d
  }

  /** Delaying arrivals by at most d makes no completion earlier and none later by more than d. */
  lemma {:induction false} DelayBound(init: real, jobs: seq<Job>, later: seq<Job>, d: real)
    requires d >= 0.0 && Delayed(jobs, later, d)
    ensures Completion(init, jobs) <= Completion(init, later) <= Completion(init, jobs) + d
    decreases |jobs|
  {
    if jobs != [] {
      var n := |jobs| - 1;
      assert Delayed(jobs[..n], later[..n], d);
      DelayBound(init, jobs[..n], later[..n], d);
    }
  }
}
