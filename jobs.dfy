/**
 * A job over one source file and its decomposition into tasks: every
 * video stream is cut into consecutive time slices, every audio stream
 * becomes one task, and all tasks draw their ids from one counter of the
 * job. The job also answers how many tasks remain, hands out the next
 * video task, and orders itself against other jobs.
 */
module Jobs {
  import Common

  datatype JobState = JOB_TODO | JOB_COMPUTING | JOB_COMPLETED | JOB_CANCELED
  datatype TaskState = TASK_TODO | TASK_COMPUTING | TASK_COMPLETED | TASK_CANCELED

  /** Audio codecs; the only one the job uses is Vorbis. */
  datatype Codec = VORBIS

  /** The kind of a stream of the source file, as the media inspector reports it. */
  datatype Stream = VideoStream | AudioStream | OtherStream

  /** What the media inspector reports of a source file: its duration in ms and its streams. */
  datatype FileInfo = FileInfo(duration: nat, streams: seq<Stream>)

  /** One time slice [start, end] (in ms) of a video stream. */
  datatype VideoTask = VideoTask(taskId: nat, jobId: string, start: nat, end: nat, state: TaskState)

  /** The whole of one audio stream, re-encoded with the given settings. */
  datatype AudioTask = AudioTask(
    taskId: nat, jobId: string, codec: Codec, channels: nat, sampleRate: nat, rate: nat,
    rateControlType: Common.RateControlType, sourceFile: string, state: TaskState)

  datatype EncodingTask = Video(video: VideoTask) | Audio(audio: AudioTask) {
    function Id(): nat {
      match this
      case Video(v) => v.taskId
      case Audio(a) => a.taskId
    }
  }

  // ---------------------------------------------------------------------
  // Slicing a video stream
  // ---------------------------------------------------------------------

  /**
   * The slice test: the time left after one more slice is at most 15% of
   * the job's length. (Integer form of a floating-point comparison with 0.15.)
   */
  predicate Absorbs(lengthOfJob: nat, lengthOfTasks: int, remaining: int) {
    100 * (remaining - lengthOfTasks) <= 15 * lengthOfJob
  }

  /**
   * The slices the loop still produces from a position `currentMs` with
   * `remaining` ms left, numbering them from `firstId`.
   */
  function SlicesFrom(firstId: nat, jobId: string, lengthOfJob: nat, lengthOfTasks: int,
                      currentMs: nat, remaining: nat): seq<VideoTask>
    requires lengthOfTasks > 0 || remaining == 0
    decreases remaining
  {
    if remaining == 0 then
      []
    else if Absorbs(lengthOfJob, lengthOfTasks, remaining) then
      [VideoTask(firstId, jobId, currentMs, lengthOfJob, TASK_TODO)]
    else
      [VideoTask(firstId, jobId, currentMs, currentMs + lengthOfTasks, TASK_TODO)]
      + SlicesFrom(firstId + 1, jobId, lengthOfJob, lengthOfTasks,
                   currentMs + lengthOfTasks, remaining - lengthOfTasks)
  }

  /** The slices of a whole video stream of the job. */
  function VideoSlices(firstId: nat, jobId: string, lengthOfJob: nat, lengthOfTasks: int): seq<VideoTask>
    requires lengthOfTasks > 0 || lengthOfJob == 0
  {
    SlicesFrom(firstId, jobId, lengthOfJob, lengthOfTasks, 0, lengthOfJob)
  }

  /**
   * Slice i starts i slices after the starting point and carries id
   * firstId + i; every slice but the last is one slice long and was cut
   * because the slice test failed; the last one ends at the job's length
   * and was cut because the test held.
   */
  lemma {:induction false} SliceAt(firstId: nat, jobId: string, lengthOfJob: nat, lengthOfTasks: int,
                                   currentMs: nat, remaining: nat, i: nat)
    requires lengthOfTasks > 0 || remaining == 0
    requires i < |SlicesFrom(firstId, jobId, lengthOfJob, lengthOfTasks, currentMs, remaining)|
    ensures var s := SlicesFrom(firstId, jobId, lengthOfJob, lengthOfTasks, currentMs, remaining);
      && s[i].taskId == firstId + i && s[i].jobId == jobId && s[i].state == TASK_TODO
      && s[i].start == currentMs + i * lengthOfTasks
      && (i < |s| - 1 ==>
            && s[i].end == currentMs + (i + 1) * lengthOfTasks
            && !Absorbs(lengthOfJob, lengthOfTasks, remaining - i * lengthOfTasks))
      && (i == |s| - 1 ==>
            && s[i].end == lengthOfJob
            && Absorbs(lengthOfJob, lengthOfTasks, remaining - i * lengthOfTasks))
    decreases remaining
  {
    var s := SlicesFrom(firstId, jobId, lengthOfJob, lengthOfTasks, currentMs, remaining);
    if !Absorbs(lengthOfJob, lengthOfTasks, remaining) {
      var rest := SlicesFrom(firstId + 1, jobId, lengthOfJob, lengthOfTasks,
                             currentMs + lengthOfTasks, remaining - lengthOfTasks);
      assert s == [s[0]] + rest;
      assert |rest| > 0;
      if i > 0 {
        SliceAt(firstId + 1, jobId, lengthOfJob, lengthOfTasks,
                currentMs + lengthOfTasks, remaining - lengthOfTasks, i - 1);
        assert s[i] == rest[i - 1];
        assert (i - 1) * lengthOfTasks + lengthOfTasks == i * lengthOfTasks;
      }
    }
  }

  /** The slices of a stream cover [0, lengthOfJob] with no gap and no overlap. */
  lemma VideoSlicesTile(firstId: nat, jobId: string, lengthOfJob: nat, lengthOfTasks: int)
    requires lengthOfTasks > 0 || lengthOfJob == 0
    ensures var s := VideoSlices(firstId, jobId, lengthOfJob, lengthOfTasks);
      && (|s| == 0 <==> lengthOfJob == 0)
      && (|s| > 0 ==> s[0].start == 0 && s[|s| - 1].end == lengthOfJob)
      && (forall i :: 0 <= i < |s| - 1 ==>
            s[i + 1].start == s[i].end && s[i].end - s[i].start == lengthOfTasks)
      && (forall i :: 0 <= i < |s| ==> s[i].taskId == firstId + i && s[i].jobId == jobId)
  {
    var s := VideoSlices(firstId, jobId, lengthOfJob, lengthOfTasks);
    if |s| > 0 {
      SliceAt(firstId, jobId, lengthOfJob, lengthOfTasks, 0, lengthOfJob, 0);
      SliceAt(firstId, jobId, lengthOfJob, lengthOfTasks, 0, lengthOfJob, |s| - 1);
    }
    forall i | 0 <= i < |s| - 1
      ensures s[i + 1].start == s[i].end && s[i].end - s[i].start == lengthOfTasks
    {
      SliceAt(firstId, jobId, lengthOfJob, lengthOfTasks, 0, lengthOfJob, i);
      SliceAt(firstId, jobId, lengthOfJob, lengthOfTasks, 0, lengthOfJob, i + 1);
    }
    forall i | 0 <= i < |s|
      ensures s[i].taskId == firstId + i && s[i].jobId == jobId
    {
      SliceAt(firstId, jobId, lengthOfJob, lengthOfTasks, 0, lengthOfJob, i);
    }
  }

  /**
   * Slicing stops at the first slice where the slice test holds, and not
   * before; so a stream has fewer slices than lengthOfJob / lengthOfTasks + 1,
   * and the last slice is longer than 15% of the job yet at most one slice
   * plus 15% of the job.
   */
  lemma VideoSlicesStop(firstId: nat, jobId: string, lengthOfJob: nat, lengthOfTasks: int)
    requires lengthOfTasks > 0 || lengthOfJob == 0
    ensures var s := VideoSlices(firstId, jobId, lengthOfJob, lengthOfTasks);
      && (forall i :: 0 <= i < |s| - 1 ==> !Absorbs(lengthOfJob, lengthOfTasks, lengthOfJob - i * lengthOfTasks))
      && (|s| > 0 ==> Absorbs(lengthOfJob, lengthOfTasks, lengthOfJob - (|s| - 1) * lengthOfTasks))
      && (|s| > 0 ==> (|s| - 1) * lengthOfTasks < lengthOfJob)
      && (|s| > 0 ==> 100 * (s[|s| - 1].end - s[|s| - 1].start - lengthOfTasks) <= 15 * lengthOfJob)
      && (|s| > 1 ==> 100 * (s[|s| - 1].end - s[|s| - 1].start) > 15 * lengthOfJob)
  {
    var s := VideoSlices(firstId, jobId, lengthOfJob, lengthOfTasks);
    forall i | 0 <= i < |s| - 1
      ensures !Absorbs(lengthOfJob, lengthOfTasks, lengthOfJob - i * lengthOfTasks)
    {
      SliceAt(firstId, jobId, lengthOfJob, lengthOfTasks, 0, lengthOfJob, i);
    }
    if |s| > 0 {
      var n := |s| - 1;
      SliceAt(firstId, jobId, lengthOfJob, lengthOfTasks, 0, lengthOfJob, n);
      if n > 0 {
        SliceAt(firstId, jobId, lengthOfJob, lengthOfTasks, 0, lengthOfJob, n - 1);
        assert (n - 1) * lengthOfTasks + lengthOfTasks == n * lengthOfTasks;
      }
    }
  }

  /** Once at most one slice is left, the slice test holds, so the loop ends. */
  lemma AbsorbsWithinOneSlice(lengthOfJob: nat, lengthOfTasks: int, remaining: int)
    requires remaining <= lengthOfTasks
    ensures Absorbs(lengthOfJob, lengthOfTasks, remaining)
  {
  }

  /**
   * A 7,211,548 ms source cut into 300,000 ms slices: twenty full slices,
   * then a 21st slice from 6,000,000 to the end of the job.
   */
  lemma WorkedExample(jobId: string, lengthOfJob: nat, lengthOfTasks: int)
    requires lengthOfJob == 7211548 && lengthOfTasks == 300000
    ensures var s := VideoSlices(0, jobId, lengthOfJob, lengthOfTasks);
      && |s| == 21
      && (forall i :: 0 <= i < 20 ==> s[i].start == 300000 * i && s[i].end == 300000 * (i + 1))
      && s[20].start == 6000000 && s[20].end == 7211548
  {
    var s := VideoSlices(0, jobId, lengthOfJob, lengthOfTasks);
    assert |s| == 21 by {
      VideoSlicesStop(0, jobId, lengthOfJob, lengthOfTasks);
      var n := |s|;
      assert (n - 1) * lengthOfTasks == 300000 * (n - 1);
      assert Absorbs(lengthOfJob, lengthOfTasks, lengthOfJob - 300000 * (n - 1));
      if n > 21 {
        assert !Absorbs(lengthOfJob, lengthOfTasks, lengthOfJob - 20 * lengthOfTasks);
      }
    }
    forall i | 0 <= i < 21
      ensures s[i].start == 300000 * i
      ensures i < 20 ==> s[i].end == 300000 * (i + 1)
      ensures i == 20 ==> s[i].end == 7211548
    {
      SliceAt(0, jobId, lengthOfJob, lengthOfTasks, 0, lengthOfJob, i);
    }
  }

  // ---------------------------------------------------------------------
  // Decomposing all streams
  // ---------------------------------------------------------------------

  /** Wrap video tasks as tasks of the job. */
  function AsVideo(vs: seq<VideoTask>): (ts: seq<EncodingTask>)
    ensures |ts| == |vs|
    ensures forall i :: 0 <= i < |vs| ==> ts[i] == Video(vs[i])
  {
    if vs == [] then [] else [Video(vs[0])] + AsVideo(vs[1..])
  }

  /** Wrap audio tasks as tasks of the job. */
  function AsAudio(as_: seq<AudioTask>): (ts: seq<EncodingTask>)
    ensures |ts| == |as_|
    ensures forall i :: 0 <= i < |as_| ==> ts[i] == Audio(as_[i])
  {
    if as_ == [] then [] else [Audio(as_[0])] + AsAudio(as_[1..])
  }

  lemma AppendAssoc<T>(a: seq<T>, b: seq<T>, c: seq<T>)
    ensures a + b + c == a + (b + c)
  {
  }

  /** The one task of an audio stream, with the fixed Vorbis settings. */
  function AudioTaskFor(taskId: nat, jobId: string, sourceFile: string): AudioTask {
    AudioTask(taskId, jobId, VORBIS, 2, 44100, 3, Common.CRF, sourceFile, TASK_TODO)
  }

  /** Whether a list of streams holds a video stream. */
  predicate HasVideo(streams: seq<Stream>)
    decreases |streams|
  {
    streams != [] && (HasVideo(streams[..|streams| - 1]) || streams[|streams| - 1] == VideoStream)
  }

  lemma {:induction false} HasVideoIff(streams: seq<Stream>)
    ensures HasVideo(streams) <==> exists i :: 0 <= i < |streams| && streams[i] == VideoStream
    decreases |streams|
  {
    if streams != [] {
      var init := streams[..|streams| - 1];
      HasVideoIff(init);
      if HasVideo(init) {
        var i :| 0 <= i < |init| && init[i] == VideoStream;
        assert streams[i] == VideoStream;
      }
      if i :| 0 <= i < |streams| - 1 && streams[i] == VideoStream {
        assert init[i] == VideoStream;
      }
    }
  }

  /** A prefix of a list of streams holds no video stream its whole does not. */
  lemma {:induction false} HasVideoPrefix(streams: seq<Stream>, n: nat)
    requires n <= |streams|
    ensures HasVideo(streams[..n]) ==> HasVideo(streams)
    decreases |streams| - n
  {
    if n < |streams| {
      assert streams[..n + 1][..n] == streams[..n];
      HasVideoPrefix(streams, n + 1);
    } else {
      assert streams[..n] == streams;
    }
  }

  /**
   * Slicing ends: the slice length is positive, or the job is empty, or
   * there is no video stream to slice.
   */
  predicate Sliceable(streams: seq<Stream>, lengthOfJob: nat, lengthOfTasks: int) {
    lengthOfTasks > 0 || lengthOfJob == 0 || !HasVideo(streams)
  }

  /** The job's two task lists; together they hold Count() tasks. */
  datatype Plan = Plan(video: seq<VideoTask>, audio: seq<AudioTask>) {
    function Count(): nat {
      |video| + |audio|
    }
  }

  /**
   * The task lists a job builds from its streams, taken in order, with
   * ids drawn from a counter that starts at firstId: a video stream
   * appends its slices to the video list, an audio stream appends one
   * task to the audio list, and any other stream adds nothing.
   */
  function Decompose(streams: seq<Stream>, firstId: nat, jobId: string, sourceFile: string,
                     lengthOfJob: nat, lengthOfTasks: int): Plan
    requires Sliceable(streams, lengthOfJob, lengthOfTasks)
    decreases |streams|
  {
    if streams == [] then
      Plan([], [])
    else
      var p := Decompose(streams[..|streams| - 1], firstId, jobId, sourceFile, lengthOfJob, lengthOfTasks);
      var nextId := firstId + p.Count();
      match streams[|streams| - 1]
      case VideoStream => p.(video := p.video + VideoSlices(nextId, jobId, lengthOfJob, lengthOfTasks))
      case AudioStream => p.(audio := p.audio + [AudioTaskFor(nextId, jobId, sourceFile)])
      case OtherStream => p
  }

  /** Decompose, stated for the prefixes a loop over the streams walks through. */
  lemma DecomposeStep(streams: seq<Stream>, i: nat, firstId: nat, jobId: string, sourceFile: string,
                      lengthOfJob: nat, lengthOfTasks: int)
    requires i < |streams|
    requires Sliceable(streams, lengthOfJob, lengthOfTasks)
    ensures Sliceable(streams[..i], lengthOfJob, lengthOfTasks)
    ensures Sliceable(streams[..i + 1], lengthOfJob, lengthOfTasks)
    ensures streams[i] == VideoStream ==> lengthOfTasks > 0 || lengthOfJob == 0
    ensures var p := Decompose(streams[..i], firstId, jobId, sourceFile, lengthOfJob, lengthOfTasks);
      var nextId := firstId + p.Count();
      Decompose(streams[..i + 1], firstId, jobId, sourceFile, lengthOfJob, lengthOfTasks)
        == match streams[i]
           case VideoStream => p.(video := p.video + VideoSlices(nextId, jobId, lengthOfJob, lengthOfTasks))
           case AudioStream => p.(audio := p.audio + [AudioTaskFor(nextId, jobId, sourceFile)])
           case OtherStream => p
  {
    HasVideoPrefix(streams, i + 1);
    HasVideoPrefix(streams, i);
    assert streams[..i + 1][..i] == streams[..i];
  }

  /**
   * Ids are handed out without gaps or repeats: every id lies in
   * [firstId, firstId + Count()), each list is in increasing id order,
   * and no video task shares its id with an audio task.
   */
  predicate IdsFrom(p: Plan, firstId: nat) {
    && (forall a :: 0 <= a < |p.video| ==> firstId <= p.video[a].taskId < firstId + p.Count())
    && (forall a :: 0 <= a < |p.audio| ==> firstId <= p.audio[a].taskId < firstId + p.Count())
    && (forall a, b :: 0 <= a < b < |p.video| ==> p.video[a].taskId < p.video[b].taskId)
    && (forall a, b :: 0 <= a < b < |p.audio| ==> p.audio[a].taskId < p.audio[b].taskId)
    && (forall a, b :: 0 <= a < |p.video| && 0 <= b < |p.audio| ==> p.video[a].taskId != p.audio[b].taskId)
  }

  /** Appending video tasks numbered on from the counter keeps the ids gap- and repeat-free. */
  lemma IdsAppendVideo(p: Plan, firstId: nat, vs: seq<VideoTask>)
    requires IdsFrom(p, firstId)
    requires forall k :: 0 <= k < |vs| ==> vs[k].taskId == firstId + p.Count() + k
    ensures IdsFrom(p.(video := p.video + vs), firstId)
  {
    var q := p.(video := p.video + vs);
    forall a | 0 <= a < |q.video|
      ensures firstId <= q.video[a].taskId < firstId + q.Count()
    {
      if a >= |p.video| {
        assert q.video[a] == vs[a - |p.video|];
      }
    }
    forall a, b | 0 <= a < b < |q.video|
      ensures q.video[a].taskId < q.video[b].taskId
    {
      if b >= |p.video| {
        assert q.video[b] == vs[b - |p.video|];
        if a >= |p.video| {
          assert q.video[a] == vs[a - |p.video|];
        }
      }
    }
    forall a, b | 0 <= a < |q.video| && 0 <= b < |q.audio|
      ensures q.video[a].taskId != q.audio[b].taskId
    {
      if a >= |p.video| {
        assert q.video[a] == vs[a - |p.video|];
      }
    }
  }

  /** Appending one audio task with the counter's next id keeps the ids gap- and repeat-free. */
  lemma IdsAppendAudio(p: Plan, firstId: nat, t: AudioTask)
    requires IdsFrom(p, firstId)
    requires t.taskId == firstId + p.Count()
    ensures IdsFrom(p.(audio := p.audio + [t]), firstId)
  {
    var q := p.(audio := p.audio + [t]);
    assert forall a :: 0 <= a < |p.audio| ==> q.audio[a] == p.audio[a];
    assert q.audio[|p.audio|] == t;
  }

  /** The counter hands out consecutive ids: the decomposition's ids are gap- and repeat-free. */
  lemma {:induction false} DecomposeIds(streams: seq<Stream>, firstId: nat, jobId: string, sourceFile: string,
                                        lengthOfJob: nat, lengthOfTasks: int)
    requires Sliceable(streams, lengthOfJob, lengthOfTasks)
    ensures IdsFrom(Decompose(streams, firstId, jobId, sourceFile, lengthOfJob, lengthOfTasks), firstId)
    decreases |streams|
  {
    if streams != [] {
      var init := streams[..|streams| - 1];
      HasVideoPrefix(streams, |streams| - 1);
      DecomposeIds(init, firstId, jobId, sourceFile, lengthOfJob, lengthOfTasks);
      var p := Decompose(init, firstId, jobId, sourceFile, lengthOfJob, lengthOfTasks);
      var nextId := firstId + p.Count();
      match streams[|streams| - 1]
      case VideoStream =>
        var vs := VideoSlices(nextId, jobId, lengthOfJob, lengthOfTasks);
        VideoSlicesTile(nextId, jobId, lengthOfJob, lengthOfTasks);
        IdsAppendVideo(p, firstId, vs);
        assert Decompose(streams, firstId, jobId, sourceFile, lengthOfJob, lengthOfTasks) == p.(video := p.video + vs);
      case AudioStream =>
        var t := AudioTaskFor(nextId, jobId, sourceFile);
        IdsAppendAudio(p, firstId, t);
        assert Decompose(streams, firstId, jobId, sourceFile, lengthOfJob, lengthOfTasks) == p.(audio := p.audio + [t]);
      case OtherStream =>
        assert Decompose(streams, firstId, jobId, sourceFile, lengthOfJob, lengthOfTasks) == p;
    }
  }

  /** The number of streams of one kind. */
  function CountStreams(streams: seq<Stream>, kind: Stream): nat {
    if streams == [] then 0
    else CountStreams(streams[..|streams| - 1], kind) + (if streams[|streams| - 1] == kind then 1 else 0)
  }

  /** The slices of a stream do not depend on the ids they are numbered from, except for those ids. */
  lemma {:induction false} SlicesRenumbered(id1: nat, id2: nat, jobId: string, lengthOfJob: nat, lengthOfTasks: int,
                                            currentMs: nat, remaining: nat)
    requires lengthOfTasks > 0 || remaining == 0
    ensures var s1 := SlicesFrom(id1, jobId, lengthOfJob, lengthOfTasks, currentMs, remaining);
      var s2 := SlicesFrom(id2, jobId, lengthOfJob, lengthOfTasks, currentMs, remaining);
      && |s1| == |s2|
      && forall k :: 0 <= k < |s1| ==> s1[k] == s2[k].(taskId := s1[k].taskId)
    decreases remaining
  {
    if remaining > 0 && !Absorbs(lengthOfJob, lengthOfTasks, remaining) {
      var s1 := SlicesFrom(id1, jobId, lengthOfJob, lengthOfTasks, currentMs, remaining);
      var s2 := SlicesFrom(id2, jobId, lengthOfJob, lengthOfTasks, currentMs, remaining);
      var r1 := SlicesFrom(id1 + 1, jobId, lengthOfJob, lengthOfTasks, currentMs + lengthOfTasks, remaining - lengthOfTasks);
      var r2 := SlicesFrom(id2 + 1, jobId, lengthOfJob, lengthOfTasks, currentMs + lengthOfTasks, remaining - lengthOfTasks);
      SlicesRenumbered(id1 + 1, id2 + 1, jobId, lengthOfJob, lengthOfTasks, currentMs + lengthOfTasks, remaining - lengthOfTasks);
      assert s1 == [s1[0]] + r1 && s2 == [s2[0]] + r2;
      forall k | 1 <= k < |s1|
        ensures s1[k] == s2[k].(taskId := s1[k].taskId)
      {
        assert s1[k] == r1[k - 1] && s2[k] == r2[k - 1];
      }
    }
  }

  lemma MulSucc(c: nat, n: nat)
    ensures (c + 1) * n == c * n + n
  {
  }

  /** Every video stream gets the same number of slices; other streams get none. */
  lemma {:induction false} DecomposeCounts(streams: seq<Stream>, firstId: nat, jobId: string, sourceFile: string,
                                           lengthOfJob: nat, lengthOfTasks: int)
    requires lengthOfTasks > 0 || lengthOfJob == 0
    ensures var p := Decompose(streams, firstId, jobId, sourceFile, lengthOfJob, lengthOfTasks);
      |p.video| == CountStreams(streams, VideoStream) * |VideoSlices(0, jobId, lengthOfJob, lengthOfTasks)|
    decreases |streams|
  {
    if streams != [] {
      var n := |streams| - 1;
      DecomposeStep(streams, n, firstId, jobId, sourceFile, lengthOfJob, lengthOfTasks);
      assert streams[..n + 1] == streams;
      DecomposeCounts(streams[..n], firstId, jobId, sourceFile, lengthOfJob, lengthOfTasks);
      var p := Decompose(streams[..n], firstId, jobId, sourceFile, lengthOfJob, lengthOfTasks);
      SlicesRenumbered(firstId + p.Count(), 0, jobId, lengthOfJob, lengthOfTasks, 0, lengthOfJob);
      MulSucc(CountStreams(streams[..n], VideoStream), |VideoSlices(0, jobId, lengthOfJob, lengthOfTasks)|);
    }
  }

  /** Every audio stream gets one task; other streams get none. */
  lemma {:induction false} DecomposeAudioCount(streams: seq<Stream>, firstId: nat, jobId: string, sourceFile: string,
                                               lengthOfJob: nat, lengthOfTasks: int)
    requires Sliceable(streams, lengthOfJob, lengthOfTasks)
    ensures |Decompose(streams, firstId, jobId, sourceFile, lengthOfJob, lengthOfTasks).audio|
            == CountStreams(streams, AudioStream)
    decreases |streams|
  {
    if streams != [] {
      var n := |streams| - 1;
      DecomposeStep(streams, n, firstId, jobId, sourceFile, lengthOfJob, lengthOfTasks);
      assert streams[..n + 1] == streams;
      DecomposeAudioCount(streams[..n], firstId, jobId, sourceFile, lengthOfJob, lengthOfTasks);
    }
  }

  /** Every audio task carries the fixed settings: Vorbis, 2 channels, 44100 Hz, 3, CRF. */
  lemma {:induction false} DecomposeAudioSettings(streams: seq<Stream>, firstId: nat, jobId: string, sourceFile: string,
                                                  lengthOfJob: nat, lengthOfTasks: int)
    requires Sliceable(streams, lengthOfJob, lengthOfTasks)
    ensures var as_ := Decompose(streams, firstId, jobId, sourceFile, lengthOfJob, lengthOfTasks).audio;
      forall k :: 0 <= k < |as_| ==> as_[k] == AudioTaskFor(as_[k].taskId, jobId, sourceFile)
    decreases |streams|
  {
    if streams != [] {
      var n := |streams| - 1;
      DecomposeStep(streams, n, firstId, jobId, sourceFile, lengthOfJob, lengthOfTasks);
      assert streams[..n + 1] == streams;
      DecomposeAudioSettings(streams[..n], firstId, jobId, sourceFile, lengthOfJob, lengthOfTasks);
    }
  }

  /** Position j of block b of vs is base[j], renumbered. */
  predicate BlockAt(vs: seq<VideoTask>, base: seq<VideoTask>, b: nat, j: nat) {
    j < |base| && b * |base| + j < |vs| && vs[b * |base| + j] == base[j].(taskId := vs[b * |base| + j].taskId)
  }

  /** vs is c blocks, each of them base renumbered. */
  predicate Blocks(vs: seq<VideoTask>, base: seq<VideoTask>, c: nat) {
    && |vs| == c * |base|
    && forall b: nat, j: nat :: b < c && j < |base| ==> BlockAt(vs, base, b, j)
  }

  lemma BlocksAppend(vs: seq<VideoTask>, base: seq<VideoTask>, c: nat, slices: seq<VideoTask>)
    requires Blocks(vs, base, c)
    requires |slices| == |base|
    requires forall j :: 0 <= j < |slices| ==> slices[j] == base[j].(taskId := slices[j].taskId)
    ensures Blocks(vs + slices, base, c + 1)
  {
    MulSucc(c, |base|);
    forall b: nat, j: nat | b < c + 1 && j < |base|
      ensures BlockAt(vs + slices, base, b, j)
    {
      BlockAppended(vs, base, c, slices, b, j);
    }
  }

  /** One position of the appended blocks: inside the old blocks, or inside the new one. */
  lemma BlockAppended(vs: seq<VideoTask>, base: seq<VideoTask>, c: nat, slices: seq<VideoTask>, b: nat, j: nat)
    requires Blocks(vs, base, c)
    requires |slices| == |base|
    requires forall j :: 0 <= j < |slices| ==> slices[j] == base[j].(taskId := slices[j].taskId)
    requires b < c + 1 && j < |base|
    ensures BlockAt(vs + slices, base, b, j)
  {
    var m := |base|;
    var k := b * m + j;
    if b < c {
      assert BlockAt(vs, base, b, j);
      assert (vs + slices)[k] == vs[k];
    } else {
      MulSucc(c, m);
      assert k == |vs| + j;
      assert (vs + slices)[k] == slices[j];
    }
  }

  /**
   * The video list is the slicing of the job repeated once per video
   * stream: position j of block b is slice j, renumbered.
   */
  lemma {:induction false} DecomposeVideoSlices(streams: seq<Stream>, firstId: nat, jobId: string, sourceFile: string,
                                                lengthOfJob: nat, lengthOfTasks: int)
    requires lengthOfTasks > 0 || lengthOfJob == 0
    ensures Blocks(Decompose(streams, firstId, jobId, sourceFile, lengthOfJob, lengthOfTasks).video,
                   VideoSlices(0, jobId, lengthOfJob, lengthOfTasks), CountStreams(streams, VideoStream))
    decreases |streams|
  {
    var base := VideoSlices(0, jobId, lengthOfJob, lengthOfTasks);
    if streams == [] {
      assert Blocks([], base, 0);
    } else {
      var init := streams[..|streams| - 1];
      DecomposeVideoSlices(init, firstId, jobId, sourceFile, lengthOfJob, lengthOfTasks);
      var p := Decompose(init, firstId, jobId, sourceFile, lengthOfJob, lengthOfTasks);
      var whole := Decompose(streams, firstId, jobId, sourceFile, lengthOfJob, lengthOfTasks);
      if streams[|streams| - 1] == VideoStream {
        var vs := VideoSlices(firstId + p.Count(), jobId, lengthOfJob, lengthOfTasks);
        SlicesRenumbered(firstId + p.Count(), 0, jobId, lengthOfJob, lengthOfTasks, 0, lengthOfJob);
        BlocksAppend(p.video, base, CountStreams(init, VideoStream), vs);
        assert whole.video == p.video + vs;
      } else {
        assert whole.video == p.video;
      }
    }
  }

  // ---------------------------------------------------------------------
  // Remaining work and the next task
  // ---------------------------------------------------------------------

  /** The number of video tasks still to do. */
  function CountTodo(vs: seq<VideoTask>): (n: nat)
    ensures n <= |vs|
    ensures n == 0 <==> forall i :: 0 <= i < |vs| ==> vs[i].state != TASK_TODO
    ensures n == |vs| <==> forall i :: 0 <= i < |vs| ==> vs[i].state == TASK_TODO
  {
    if vs == [] then 0
    else CountTodo(vs[..|vs| - 1]) + (if vs[|vs| - 1].state == TASK_TODO then 1 else 0)
  }

  /** Counting one more task adds one exactly when that task is still to do. */
  lemma CountTodoStep(vs: seq<VideoTask>, i: nat)
    requires i < |vs|
    ensures CountTodo(vs[..i + 1]) == CountTodo(vs[..i]) + if vs[i].state == TASK_TODO then 1 else 0
  {
    assert vs[..i + 1][..i] == vs[..i];
  }

  /** The counting loop of the job's remaining-work query. */
  method CountTodoTasks(vs: seq<VideoTask>) returns (count: nat)
    ensures count == CountTodo(vs)
  {
    count := 0;
    var i := 0;
    while i < |vs|
      invariant 0 <= i <= |vs|
      invariant count == CountTodo(vs[..i])
    {
      CountTodoStep(vs, i);
      if vs[i].state == TASK_TODO {
        count := count + 1;
      }
      i := i + 1;
    }
    assert vs[..i] == vs;
  }

  /**
   * The tasks left to hand out as the job counts them: none once the job
   * is completed, all video tasks while it has not started, otherwise
   * the video tasks still to do.
   */
  function RemainingCount(status: JobState, vs: seq<VideoTask>): (n: nat)
    ensures n <= |vs|
    ensures status == JOB_COMPLETED ==> n == 0
    ensures status == JOB_TODO ==> n == |vs|
    ensures status != JOB_COMPLETED && status != JOB_TODO ==> n == CountTodo(vs)
  {
    match status
    case JOB_COMPLETED => 0
    case JOB_TODO => |vs|
    case _ => CountTodo(vs)
  }

  /** The position of the first video task still to do (|vs| if there is none). */
  function FirstTodoIndex(vs: seq<VideoTask>): (k: nat)
    ensures k <= |vs|
    ensures forall i :: 0 <= i < k ==> vs[i].state != TASK_TODO
    ensures k < |vs| ==> vs[k].state == TASK_TODO
  {
    if vs == [] then 0
    else if vs[0].state == TASK_TODO then 0
    else 1 + FirstTodoIndex(vs[1..])
  }

  /** Job ordering key: priority, then remaining count, then length. */
  datatype SortKey = SortKey(priority: int, remaining: nat, length: nat)

  /** Lexicographic "strictly before" on keys. */
  predicate KeyBefore(a: SortKey, b: SortKey) {
    || a.priority < b.priority
    || (a.priority == b.priority && a.remaining < b.remaining)
    || (a.priority == b.priority && a.remaining == b.remaining && a.length < b.length)
  }

  /** Three-way integer comparison: -1, 0 or 1. */
  function IntCompare(x: int, y: int): int {
    if x < y then -1 else if x == y then 0 else 1
  }

  /** Compare two jobs' keys field by field, the first difference deciding. */
  function CompareKeys(a: SortKey, b: SortKey): (r: int)
    ensures r == -1 || r == 0 || r == 1
    ensures r < 0 <==> KeyBefore(a, b)
    ensures r > 0 <==> KeyBefore(b, a)
    ensures r == 0 <==> a == b
  {
    if a.priority != b.priority then IntCompare(a.priority, b.priority)
    else if a.remaining != b.remaining then IntCompare(a.remaining, b.remaining)
    else IntCompare(a.length, b.length)
  }

  /** Swapping the two jobs flips the sign; a job compares equal to itself; "before" is transitive. */
  lemma CompareKeysOrder(a: SortKey, b: SortKey, c: SortKey)
    ensures CompareKeys(a, b) == -CompareKeys(b, a)
    ensures CompareKeys(a, a) == 0
    ensures CompareKeys(a, b) < 0 && CompareKeys(b, c) < 0 ==> CompareKeys(a, c) < 0
  {
  }

  // ---------------------------------------------------------------------
  // The job
  // ---------------------------------------------------------------------

  class Job {
    const jobId: string
    const jobName: string
    const config: Common.JobConfig
    const lengthOfTasks: int
    const lengthOfJob: nat
    const priority: int
    const fileInfo: FileInfo
    var jobStatus: JobState
    var videoTasks: seq<VideoTask>
    var audioTasks: seq<AudioTask>
    var taskCount: nat

    /** The job's length is the source's duration, and the slice length lets slicing end. */
    ghost predicate Valid()
      reads this
    {
      && lengthOfJob == fileInfo.duration
      && (Sliceable(fileInfo.streams, lengthOfJob, lengthOfTasks))
    }

    /** The decomposition of this job's source, numbered from firstId. */
    ghost function Planned(firstId: nat): Plan
      reads this
      requires Valid()
    {
      Decompose(fileInfo.streams, firstId, jobId, config.sourceFile, lengthOfJob, lengthOfTasks)
    }

    /**
     * A new job: it takes its length from the source, has not started,
     * and holds the decomposition of its source numbered from 0. Its id
     * comes from the id generator, here a parameter.
     */
    constructor (config: Common.JobConfig, jobName: string, lengthOfTasks: int, fileInfo: FileInfo, jobId: string)
      requires Sliceable(fileInfo.streams, fileInfo.duration, lengthOfTasks)
      ensures Valid()
      ensures this.config == config && this.jobName == jobName && this.jobId == jobId
      ensures this.lengthOfTasks == lengthOfTasks && this.fileInfo == fileInfo && priority == 0
      ensures jobStatus == JOB_TODO
      ensures videoTasks == Planned(0).video && audioTasks == Planned(0).audio
      ensures taskCount == Planned(0).Count()
    {
      this.config := Common.CopyConfig(config);
      this.jobName := jobName;
      this.lengthOfTasks := lengthOfTasks;
      this.lengthOfJob := fileInfo.duration;
      this.fileInfo := fileInfo;
      this.jobId := jobId;
      this.priority := 0;
      jobStatus := JOB_TODO;
      videoTasks := [];
      audioTasks := [];
      taskCount := 0;
      new;
      CreateTasks();
    }

    /** Walk the streams, appending each one's tasks to the video or audio list. */
    method CreateTasks()
      requires Valid()
      modifies this`videoTasks, this`audioTasks, this`taskCount
      ensures videoTasks == old(videoTasks) + Planned(old(taskCount)).video
      ensures audioTasks == old(audioTasks) + Planned(old(taskCount)).audio
      ensures taskCount == old(taskCount) + Planned(old(taskCount)).Count()
    {
      var streams := fileInfo.streams;
      ghost var v0, a0, c0 := videoTasks, audioTasks, taskCount;
      var i := 0;
      while i < |streams|
        invariant 0 <= i <= |streams|
        invariant Sliceable(streams[..i], lengthOfJob, lengthOfTasks)
        invariant var p := Decompose(streams[..i], c0, jobId, config.sourceFile, lengthOfJob, lengthOfTasks);
          && videoTasks == v0 + p.video
          && audioTasks == a0 + p.audio
          && taskCount == c0 + p.Count()
      {
        DecomposeStep(streams, i, c0, jobId, config.sourceFile, lengthOfJob, lengthOfTasks);
        ghost var p := Decompose(streams[..i], c0, jobId, config.sourceFile, lengthOfJob, lengthOfTasks);
        var stream := streams[i];
        if stream == VideoStream {
          var tasks := CreateVideoTasks();
          AppendAssoc(v0, p.video, tasks);
          videoTasks := videoTasks + tasks;
        } else if stream == AudioStream {
          var task := CreateAudioTask();
          AppendAssoc(a0, p.audio, [task]);
          audioTasks := audioTasks + [task];
        }
        i := i + 1;
      }
      assert streams[..i] == streams;
    }

    /**
     * Cut the source into slices: each pass makes one task starting where
     * the previous ended, and either clamps it to the end of the job and
     * stops, or makes it one slice long and moves on.
     */
    method CreateVideoTasks() returns (tasks: seq<VideoTask>)
      requires Valid()
      requires lengthOfTasks > 0 || lengthOfJob == 0
      modifies this`taskCount
      ensures tasks == VideoSlices(old(taskCount), jobId, lengthOfJob, lengthOfTasks)
      ensures taskCount == old(taskCount) + |tasks|
    {
      var currentMs: nat := 0;
      tasks := [];
      var remaining: nat := fileInfo.duration;
      while remaining > 0
        invariant lengthOfTasks > 0 || remaining == 0
        invariant taskCount == old(taskCount) + |tasks|
        invariant tasks + SlicesFrom(taskCount, jobId, lengthOfJob, lengthOfTasks, currentMs, remaining)
               == VideoSlices(old(taskCount), jobId, lengthOfJob, lengthOfTasks)
        decreases remaining
      {
        ghost var rest := SlicesFrom(taskCount, jobId, lengthOfJob, lengthOfTasks, currentMs, remaining);
        var task := VideoTask(taskCount, jobId, currentMs, 0, TASK_TODO);
        taskCount := taskCount + 1;
        if 100 * (remaining - lengthOfTasks) <= 15 * lengthOfJob {
          task := task.(end := lengthOfJob);
          remaining := 0;
        } else {
          task := task.(end := currentMs + lengthOfTasks);
          remaining := remaining - lengthOfTasks;
          currentMs := currentMs + lengthOfTasks;
        }
        assert rest == [task] + SlicesFrom(taskCount, jobId, lengthOfJob, lengthOfTasks, currentMs, remaining);
        assert tasks + [task] + SlicesFrom(taskCount, jobId, lengthOfJob, lengthOfTasks, currentMs, remaining)
            == tasks + rest;
        tasks := tasks + [task];
      }
    }

    /** Draw the next id and make the audio task for one stream. */
    method CreateAudioTask() returns (task: AudioTask)
      modifies this`taskCount
      ensures task == AudioTaskFor(old(taskCount), jobId, config.sourceFile)
      ensures taskCount == old(taskCount) + 1
    {
      var nextTaskId := taskCount;
      taskCount := taskCount + 1;
      task := AudioTask(nextTaskId, jobId, VORBIS, 2, 44100, 3, Common.CRF, config.sourceFile, TASK_TODO);
    }

    /** Count, if the status calls for it, the video tasks still to do. */
    method GetTaskRemainingCount() returns (count: nat)
      ensures count == RemainingCount(jobStatus, videoTasks)
      ensures count <= |videoTasks|
    {
      match jobStatus
      case JOB_COMPLETED =>
        return 0;
      case JOB_TODO =>
        return |videoTasks|;
      case _ =>
        count := CountTodoTasks(videoTasks);
    }

    /**
     * The next video task to hand out: none when nothing remains;
     * otherwise a job not yet started becomes computing, and the first
     * video task still to do is returned (none if there is no such task).
     */
    method GetNextTask() returns (task: Common.Option<VideoTask>)
      modifies this`jobStatus
      ensures old(RemainingCount(jobStatus, videoTasks)) == 0 ==> task.None? && jobStatus == old(jobStatus)
      ensures old(RemainingCount(jobStatus, videoTasks)) > 0 ==>
        && jobStatus == (if old(jobStatus) == JOB_TODO then JOB_COMPUTING else old(jobStatus))
        && task == (var k := FirstTodoIndex(videoTasks); if k < |videoTasks| then Common.Some(videoTasks[k]) else Common.None)
      ensures task.Some? ==> task.value in videoTasks && task.value.state == TASK_TODO
    {
      var remaining := GetTaskRemainingCount();
      if remaining == 0 {
        return Common.None;
      }
      if jobStatus == JOB_TODO {
        jobStatus := JOB_COMPUTING;
      }
      var i := 0;
      while i < |videoTasks|
        invariant 0 <= i <= FirstTodoIndex(videoTasks)
      {
        if videoTasks[i].state == TASK_TODO {
          return Common.Some(videoTasks[i]);
        }
        i := i + 1;
      }
      return Common.None;
    }

    /** This job's ordering key; the remaining count is the job's own count. */
    function Key(): SortKey
      reads this
    {
      SortKey(priority, RemainingCount(jobStatus, videoTasks), lengthOfJob)
    }

    /** Order jobs by priority, then remaining tasks, then length. */
    function CompareTo(other: Job): (r: int)
      reads this, other
      ensures r == -1 || r == 0 || r == 1
      ensures r < 0 <==> KeyBefore(Key(), other.Key())
      ensures r == 0 <==> Key() == other.Key()
    {
      CompareKeys(Key(), other.Key())
    }

    /** All tasks of the job: the audio tasks first, then the video tasks. */
    function Tasks(): (ts: seq<EncodingTask>)
      reads this
      ensures |ts| == |audioTasks| + |videoTasks|
      ensures forall i :: 0 <= i < |audioTasks| ==> ts[i] == Audio(audioTasks[i])
      ensures forall i :: 0 <= i < |videoTasks| ==> ts[|audioTasks| + i] == Video(videoTasks[i])
    {
      AsAudio(audioTasks) + AsVideo(videoTasks)
    }
  }
}
