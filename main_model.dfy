/** The frame-pipeline hand-off (`src/main_model.py`): a run flag, a FIFO
    queue of results and one iteration of the processing loop. The camera,
    the landmark detector and the processor's foreign helpers are inputs of
    each iteration; threads and sleeps are not modelled. */
module MainModel {
  import opened Wrappers
  import opened Geometry
  import opened Canvas
  import IP = ImageProcessor

  /** A camera frame: its size, and whether it has been mirrored. */
  datatype Frame = Frame(size: FrameSize, mirrored: bool)

  /** `cv.flip(frame, 1)`: the horizontal mirror image. */
  function Flip(f: Frame): (g: Frame)
    ensures g.size == f.size && g.mirrored != f.mirrored
  {
    f.(mirrored := !f.mirrored)
  }

  /** What `cap.read()` did: raised, or returned `(ret, frame)`. */
  datatype ReadOutcome = ReadRaised | ReadReturned(ok: bool, frame: Option<Frame>)

  /** What the landmark detector did with the frame it was given. */
  datatype Detection = DetectorRaised | Detected(faces: seq<seq<Landmark>>)

  /** Everything one iteration reads from outside: the camera, the mirror
      setting, the detector (as a function of the frame it is given) and
      the threshold setting at the time of the put. */
  datatype Tick = Tick(read: ReadOutcome, mirror: bool, detect: Frame -> Detection, threshold: real)

  /** The processor's foreign inputs: the show-camera setting, the circle
      fitter, `math.hypot` and the metric formatter. */
  datatype Env = Env(showCamera: bool, enclose: seq<Point> -> Circle, hypot: (real, real) -> real,
                     format: real -> string)

  /** A queued result: the processor's dictionary with the frame processed,
      the detector's faces and the threshold added. */
  datatype QueuedResult = QueuedResult(result: FaceMeshResult, frame: Frame,
                                       faces: seq<seq<Landmark>>, thresholdValue: real)

  /** The frame handed to the detector and the processor. */
  function DetectorInput(f: Frame, mirror: bool): (g: Frame)
    ensures g.size == f.size
    ensures g.mirrored == (f.mirrored != mirror)
  {
    if mirror then Flip(f) else f
  }

  /** The results one iteration of `_processing_loop` puts on the queue:
      none when the read fails, yields no frame or anything raises, and
      exactly one, stamped with the threshold of that iteration,
      otherwise. */
  function Produce(p: IP.ProcessorState, tick: Tick, env: Env): (r: seq<QueuedResult>)
    ensures |r| <= 1
    ensures |r| == 1 <==>
      tick.read.ReadReturned? && tick.read.ok && tick.read.frame.Some? &&
      tick.detect(DetectorInput(tick.read.frame.value, tick.mirror)).Detected? &&
      IP.ProcessFaceMesh(p, tick.read.frame.value.size,
                         tick.detect(DetectorInput(tick.read.frame.value, tick.mirror)).faces,
                         env.showCamera, env.enclose, env.hypot, env.format).Ok?
    ensures |r| == 1 ==>
      r[0].thresholdValue == tick.threshold &&
      r[0].frame == DetectorInput(tick.read.frame.value, tick.mirror) &&
      r[0].faces == tick.detect(r[0].frame).faces &&
      r[0].result == IP.ProcessFaceMesh(p, r[0].frame.size, r[0].faces,
                                        env.showCamera, env.enclose, env.hypot, env.format).value
  {
    match tick.read
    case ReadRaised => []
    case ReadReturned(ok, frame) =>
      if !ok || frame.None? then []
      else
        var input := DetectorInput(frame.value, tick.mirror);
        match tick.detect(input)
        case DetectorRaised => []
        case Detected(faces) =>
          match IP.ProcessFaceMesh(p, input.size, faces, env.showCamera, env.enclose, env.hypot, env.format)
          case Err(_) => []
          case Ok(result) => [QueuedResult(result, input, faces, tick.threshold)]
  }

  /** The results of a run of iterations, in order. */
  function ProduceAll(p: IP.ProcessorState, ticks: seq<Tick>, env: Env): (r: seq<QueuedResult>)
    ensures |r| <= |ticks|
    decreases |ticks|
  {
    if ticks == [] then []
    else
      var last := Produce(p, ticks[|ticks| - 1], env);
      assert |last| <= 1;
      ProduceAll(p, ticks[..|ticks| - 1], env) + last
  }

  /** One more iteration appends that iteration's results. */
  lemma ProduceAllStep(p: IP.ProcessorState, ticks: seq<Tick>, i: nat, env: Env)
    requires i < |ticks|
    ensures ProduceAll(p, ticks[..i + 1], env) == ProduceAll(p, ticks[..i], env) + Produce(p, ticks[i], env)
  {
    assert ticks[..i + 1][..i] == ticks[..i];
  }

  /** Appending in two steps is appending the concatenation. */
  lemma AppendAssoc<T>(a: seq<T>, b: seq<T>, c: seq<T>)
    ensures (a + b) + c == a + (b + c)
  {
  }

  /** Every result of a run carries the threshold read by one of its
      iterations. */
  lemma {:induction false} ProduceAllStamps(p: IP.ProcessorState, ticks: seq<Tick>, env: Env)
    ensures forall k :: 0 <= k < |ProduceAll(p, ticks, env)| ==>
      exists i :: 0 <= i < |ticks| && ProduceAll(p, ticks, env)[k].thresholdValue == ticks[i].threshold
    decreases |ticks|
  {
    if ticks != [] {
      var n := |ticks| - 1;
      ProduceAllStamps(p, ticks[..n], env);
      var before := ProduceAll(p, ticks[..n], env);
      var r := ProduceAll(p, ticks, env);
      forall k | 0 <= k < |r|
        ensures exists i :: 0 <= i < |ticks| && r[k].thresholdValue == ticks[i].threshold
      {
        if k < |before| {
          var i :| 0 <= i < n && before[k].thresholdValue == ticks[..n][i].threshold;
          assert r[k] == before[k] && ticks[..n][i] == ticks[i];
        } else {
          assert r[k] == Produce(p, ticks[n], env)[0];
        }
      }
    } else {
      assert ProduceAll(p, ticks, env) == [];
    }
  }

  class MainModel {
    var shouldProcess: bool
    var queue: seq<QueuedResult>
    var hasThread: bool
    ghost var threadsStarted: nat
    const processor: IP.ImageProcessor

    /** `__init__`: running, an empty queue and no thread yet. */
    constructor (processor: IP.ImageProcessor)
      ensures shouldProcess && queue == [] && !hasThread && threadsStarted == 0
      ensures this.processor == processor
    {
      this.processor := processor;
      shouldProcess := true;
      queue := [];
      hasThread := false;
      threadsStarted := 0;
    }

    /** `start`: set the run flag and start a processing thread (every call
        starts another one). */
    method Start()
      modifies this
      ensures shouldProcess && hasThread && threadsStarted == old(threadsStarted) + 1
      ensures queue == old(queue)
    {
      shouldProcess := true;
      hasThread := true;
      threadsStarted := threadsStarted + 1;
    }

    /** `stop`: clear the run flag (the join with a timeout is not
        modelled). */
    method Stop()
      modifies this
      ensures !shouldProcess
      ensures queue == old(queue) && hasThread == old(hasThread) && threadsStarted == old(threadsStarted)
    {
      shouldProcess := false;
    }

    /** `get_next_result`: the oldest queued result, removed, or None on an
        empty queue. */
    method GetNextResult() returns (r: Option<QueuedResult>)
      modifies this
      ensures old(queue) == [] ==> r == None && queue == []
      ensures old(queue) != [] ==> r == Some(old(queue)[0]) && queue == old(queue)[1..]
      ensures shouldProcess == old(shouldProcess) && hasThread == old(hasThread)
    {
      if queue == [] {
        r := None;
      } else {
        r := Some(queue[0]);
        queue := queue[1..];
      }
    }

    /** One pass of the loop body: what it puts on the queue is exactly
        `Produce`; failures and exceptions leave the run flag as it is. */
    method ProcessingIteration(tick: Tick, env: Env)
      modifies this
      ensures queue == old(queue) + Produce(old(processor.State()), tick, env)
      ensures shouldProcess == old(shouldProcess) && hasThread == old(hasThread)
    {
      var p := processor.State();
      match tick.read {
        case ReadRaised =>
          return;
        case ReadReturned(ok, frame) =>
          if !ok || frame.None? {
            return;
          }
          var input := DetectorInput(frame.value, tick.mirror);
          match tick.detect(input) {
            case DetectorRaised =>
              return;
            case Detected(faces) =>
              var results := IP.ProcessFaceMesh(p, input.size, faces, env.showCamera, env.enclose, env.hypot, env.format);
              if results.Err? {
                return;
              }
              queue := queue + [QueuedResult(results.value, input, faces, tick.threshold)];
          }
      }
    }

    /** `_processing_loop` over a run of iterations while the run flag is
        set: the queue grows by exactly the results of those iterations, in
        order. */
    method ProcessingLoop(ticks: seq<Tick>, env: Env)
      modifies this
      ensures old(shouldProcess) ==> queue == old(queue) + ProduceAll(old(processor.State()), ticks, env)
      ensures !old(shouldProcess) ==> queue == old(queue)
      ensures shouldProcess == old(shouldProcess)
    {
      ghost var p := processor.State();
      var i := 0;
      while shouldProcess && i < |ticks|
        invariant 0 <= i <= |ticks|
        invariant shouldProcess == old(shouldProcess)
        invariant processor.State() == p
        invariant old(shouldProcess) ==> queue == old(queue) + ProduceAll(p, ticks[..i], env)
        invariant !old(shouldProcess) ==> queue == old(queue) && i == 0
      {
        ProcessingIteration(ticks[i], env);
        ProduceAllStep(p, ticks, i, env);
        AppendAssoc(old(queue), ProduceAll(p, ticks[..i], env), Produce(p, ticks[i], env));
        i := i + 1;
      }
      if old(shouldProcess) {
        assert ticks[..i] == ticks;
      }
    }
  }
}
