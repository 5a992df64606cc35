/** Voice activity detection with a pre-buffer (audio/recorder.py). */
module VoiceActivity {
  import opened Prelude

  datatype Chunk<T> = Chunk(data: T, isSpeech: bool)

  datatype Settings = Settings(maxPreBuffer: nat, maxSilence: nat)

  // ----- The buffer as a value -----

  datatype State<T> = State(preBuffer: seq<T>, recording: seq<T>, silence: nat) {

    /** The state after one more chunk. */
    function Add(settings: Settings, chunk: Chunk<T>): State<T> {
      if chunk.isSpeech then
        State(preBuffer, (if recording == [] then preBuffer else recording) + [chunk.data], 0)
      else
        var pre := LastOf(preBuffer + [chunk.data], settings.maxPreBuffer);
        if recording == [] then State(pre, [], silence) else State(pre, recording + [chunk.data], silence + 1)
    }

    /** Whether this chunk makes the recording complete. */
    predicate Completes(settings: Settings, chunk: Chunk<T>) {
      !chunk.isSpeech && recording != [] && silence + 1 > settings.maxSilence
    }

    function Reset(): State<T> {
      State(preBuffer, [], 0)
    }
  }

  type Bytes = seq<bv8>

  function Join(parts: seq<Bytes>): Bytes {
    if parts == [] then [] else parts[0] + Join(parts[1..])
  }

  class VADBuffer {
    const settings: Settings
    var preBuffer: seq<Bytes>
    var recordingBuffer: seq<Bytes>
    var silenceChunks: nat

    constructor (settings: Settings)
      ensures this.settings == settings && Value() == State([], [], 0)
    {
      this.settings := settings;
      preBuffer, recordingBuffer, silenceChunks := [], [], 0;
    }

    ghost function Value(): State<Bytes>
      reads this
    {
      State(preBuffer, recordingBuffer, silenceChunks)
    }

    method AddChunk(data: Bytes, isSpeech: bool) returns (complete: bool)
      modifies this
      ensures Value() == old(Value()).Add(settings, Chunk(data, isSpeech))
      ensures complete <==> old(Value()).Completes(settings, Chunk(data, isSpeech))
    {
      if !isSpeech {
        preBuffer := LastOf(preBuffer + [data], settings.maxPreBuffer);
        if recordingBuffer != [] {
          silenceChunks := silenceChunks + 1;
          recordingBuffer := recordingBuffer + [data];
          if silenceChunks > settings.maxSilence {
            return true;
          }
        }
      } else {
        if recordingBuffer == [] {
          recordingBuffer := preBuffer;
        }
        silenceChunks := 0;
        recordingBuffer := recordingBuffer + [data];
      }
      return false;
    }

    method GetAudio() returns (audio: Bytes)
      ensures audio == Join(recordingBuffer) && IsMadeOf(audio, recordingBuffer)
    {
      audio := [];
      MadeOfNothing<bv8>();
      assert recordingBuffer[..0] == [];
      for i := 0 to |recordingBuffer|
        invariant audio + Join(recordingBuffer[i..]) == Join(recordingBuffer)
        invariant IsMadeOf(audio, recordingBuffer[..i])
      {
        hide IsMadeOf;
        assert recordingBuffer[i..][1..] == recordingBuffer[i + 1..];
        MadeOfOneMore(audio, recordingBuffer[..i], recordingBuffer[i]);
        assert recordingBuffer[..i + 1] == recordingBuffer[..i] + [recordingBuffer[i]];
        audio := audio + recordingBuffer[i];
      }
      assert recordingBuffer[..|recordingBuffer|] == recordingBuffer;
    }

    method Reset()
      modifies this
      ensures Value() == old(Value()).Reset()
    {
      recordingBuffer := [];
      silenceChunks := 0;
    }
  }

  // ----- The stream of chunks -----

  function Data<T>(stream: seq<Chunk<T>>): (r: seq<T>)
    ensures |r| == |stream| && forall i :: 0 <= i < |r| ==> r[i] == stream[i].data
  {
    seq(|stream|, i requires 0 <= i < |stream| => stream[i].data)
  }

  function FirstSpeech<T>(stream: seq<Chunk<T>>): (k: nat)
    ensures k <= |stream| && (k < |stream| ==> stream[k].isSpeech)
    ensures forall i :: 0 <= i < k ==> !stream[i].isSpeech
  {
    if stream == [] || stream[0].isSpeech then 0 else 1 + FirstSpeech(stream[1..])
  }

  /** The length of the run of silent chunks at the end. */
  function TrailingSilence<T>(stream: seq<Chunk<T>>): (n: nat)
    ensures n <= |stream| && (n < |stream| ==> stream[|stream| - n - 1].isSpeech)
    ensures forall i :: |stream| - n <= i < |stream| ==> !stream[i].isSpeech
  {
    if stream == [] || stream[|stream| - 1].isSpeech then 0 else 1 + TrailingSilence(stream[..|stream| - 1])
  }

  predicate HasSpeech<T>(stream: seq<Chunk<T>>) {
    exists i :: 0 <= i < |stream| && stream[i].isSpeech
  }

  // ----- One recording from a fresh buffer -----

  function Feed<T>(settings: Settings, stream: seq<Chunk<T>>): State<T> {
    if stream == [] then State([], [], 0)
    else Feed(settings, stream[..|stream| - 1]).Add(settings, stream[|stream| - 1])
  }

  lemma LastOfSnoc<T>(xs: seq<T>, x: T, n: nat)
    ensures LastOf(LastOf(xs, n) + [x], n) == LastOf(xs + [x], n)
  {
  }

  lemma DataSnoc<T>(stream: seq<Chunk<T>>)
    requires stream != []
    ensures Data(stream) == Data(stream[..|stream| - 1]) + [stream[|stream| - 1].data]
  {
  }

  lemma FirstSpeechIs<T>(stream: seq<Chunk<T>>, k: nat)
    requires k <= |stream| && (k < |stream| ==> stream[k].isSpeech)
    requires forall i :: 0 <= i < k ==> !stream[i].isSpeech
    ensures FirstSpeech(stream) == k
  {
  }

  /** Where the recording starts when the first speech is chunk k. */
  function RecordingStart(settings: Settings, k: nat): nat {
    if k <= settings.maxPreBuffer then 0 else k - settings.maxPreBuffer
  }

  /** Before any speech the pre-buffer holds the end of the stream.  From then on the recording is the
      stream from the pre-buffer in front of the first speech on, and the silence counter counts the
      silent chunks since the last speech. */
  ghost predicate Describes<T>(s: State<T>, settings: Settings, stream: seq<Chunk<T>>) {
    var k := FirstSpeech(stream);
    if k == |stream| then s == State(LastOf(Data(stream), settings.maxPreBuffer), [], 0)
    else s.recording == Data(stream)[RecordingStart(settings, k)..] && s.silence == TrailingSilence(stream)
  }

  lemma DescribesNext<T>(s: State<T>, settings: Settings, stream: seq<Chunk<T>>)
    requires stream != [] && Describes(s, settings, stream[..|stream| - 1])
    ensures Describes(s.Add(settings, stream[|stream| - 1]), settings, stream)
  {
    hide Describes;
    if FirstSpeech(stream[..|stream| - 1]) < |stream| - 1 {
      DescribesRecording(s, settings, stream);
    } else if stream[|stream| - 1].isSpeech {
      DescribesFirstSpeech(s, settings, stream);
    } else {
      DescribesQuiet(s, settings, stream);
    }
  }

  lemma DescribesQuiet<T>(s: State<T>, settings: Settings, stream: seq<Chunk<T>>)
    requires stream != [] && Describes(s, settings, stream[..|stream| - 1])
    requires FirstSpeech(stream[..|stream| - 1]) == |stream| - 1 && !stream[|stream| - 1].isSpeech
    ensures Describes(s.Add(settings, stream[|stream| - 1]), settings, stream)
  {
    hide FirstSpeech, LastOf;
    var front, last := stream[..|stream| - 1], stream[|stream| - 1];
    DataSnoc(stream);
    FirstSpeechIs(stream, |stream|);
    LastOfSnoc(Data(front), last.data, settings.maxPreBuffer);
  }

  lemma DescribesFirstSpeech<T>(s: State<T>, settings: Settings, stream: seq<Chunk<T>>)
    requires stream != [] && Describes(s, settings, stream[..|stream| - 1])
    requires FirstSpeech(stream[..|stream| - 1]) == |stream| - 1 && stream[|stream| - 1].isSpeech
    ensures Describes(s.Add(settings, stream[|stream| - 1]), settings, stream)
  {
    hide FirstSpeech, LastOf, TrailingSilence;
    var front, last := stream[..|stream| - 1], stream[|stream| - 1];
    DataSnoc(stream);
    FirstSpeechIs(stream, |front|);
    LastOfIsSuffix(Data(front), settings);
    TrailingSilenceSnoc(stream);
    var start := RecordingStart(settings, |front|);
    assert Data(stream)[start..] == Data(front)[start..] + [last.data];
  }

  lemma DescribesRecording<T>(s: State<T>, settings: Settings, stream: seq<Chunk<T>>)
    requires stream != [] && Describes(s, settings, stream[..|stream| - 1])
    requires FirstSpeech(stream[..|stream| - 1]) < |stream| - 1
    ensures Describes(s.Add(settings, stream[|stream| - 1]), settings, stream)
  {
    hide FirstSpeech, LastOf, TrailingSilence;
    var front, last := stream[..|stream| - 1], stream[|stream| - 1];
    var k := FirstSpeech(front);
    DataSnoc(stream);
    FirstSpeechIs(stream, k);
    TrailingSilenceSnoc(stream);
    var start := RecordingStart(settings, k);
    assert Data(stream)[start..] == Data(front)[start..] + [last.data];
  }

  lemma TrailingSilenceSnoc<T>(stream: seq<Chunk<T>>)
    requires stream != []
    ensures TrailingSilence(stream) == if stream[|stream| - 1].isSpeech then 0
        else 1 + TrailingSilence(stream[..|stream| - 1])
  {
  }

  lemma LastOfIsSuffix<T>(xs: seq<T>, settings: Settings)
    ensures LastOf(xs, settings.maxPreBuffer) == xs[RecordingStart(settings, |xs|)..]
  {
  }

  lemma {:induction false} FreshRecordingIsContiguous<T>(settings: Settings, stream: seq<Chunk<T>>)
    ensures Describes(Feed(settings, stream), settings, stream)
  {
    if stream != [] {
      FreshRecordingIsContiguous(settings, stream[..|stream| - 1]);
      DescribesNext(Feed(settings, stream[..|stream| - 1]), settings, stream);
    } else {
      assert Data(stream) == [];
    }
  }

  /** Completion is reported exactly while a run of more than `maxSilence` silent chunks follows speech. */
  lemma CompletionIsLongSilence<T>(settings: Settings, stream: seq<Chunk<T>>)
    requires stream != []
    ensures Feed(settings, stream[..|stream| - 1]).Completes(settings, stream[|stream| - 1])
       <==> HasSpeech(stream) && TrailingSilence(stream) > settings.maxSilence
  {
    hide FirstSpeech, Feed, TrailingSilence, LastOf, HasSpeech;
    FreshRecordingIsContiguous(settings, stream[..|stream| - 1]);
    TrailingSilenceSnoc(stream);
    SpeechSnoc(stream);
  }

  lemma SpeechSnoc<T>(stream: seq<Chunk<T>>)
    requires stream != []
    ensures HasSpeech(stream) <==> stream[|stream| - 1].isSpeech || FirstSpeech(stream[..|stream| - 1]) < |stream| - 1
  {
    hide FirstSpeech;
    var front := stream[..|stream| - 1];
    if HasSpeech(stream) {
      var i :| 0 <= i < |stream| && stream[i].isSpeech;
      assert i < |front| ==> front[i].isSpeech;
    }
    if FirstSpeech(front) < |front| {
      assert stream[FirstSpeech(front)].isSpeech;
    }
  }

  // ----- Recording after recording, with a reset after each completion -----

  /** The buffer after the stream, reset whenever a chunk completed the recording. */
  function Session<T>(settings: Settings, stream: seq<Chunk<T>>): State<T> {
    if stream == [] then State([], [], 0)
    else
      var s, last := Session(settings, stream[..|stream| - 1]), stream[|stream| - 1];
      var next := s.Add(settings, last);
      if s.Completes(settings, last) then next.Reset() else next
  }

  /** The recording after the last chunk, before a reset that it may cause. */
  function RecordingNow<T>(settings: Settings, stream: seq<Chunk<T>>): seq<T>
    requires stream != []
  {
    Session(settings, stream[..|stream| - 1]).Add(settings, stream[|stream| - 1]).recording
  }

  ghost predicate IsStretchAt<T>(xs: seq<T>, data: seq<T>, a: nat) {
    a + |xs| <= |data| && xs == data[a..a + |xs|]
  }

  /** xs is a stretch of consecutive elements of the data. */
  ghost predicate IsContiguous<T>(xs: seq<T>, data: seq<T>) {
    exists a: nat :: IsStretchAt(xs, data, a)
  }

  ghost predicate EndsWith<T>(data: seq<T>, xs: seq<T>) {
    |xs| <= |data| && xs == data[|data| - |xs|..]
  }

  /** Between recordings the pre-buffer is the end of the stream; while recording, the recording is, and
      so is the part of the pre-buffer that the silence since the last speech has filled. */
  ghost predicate IsSynchronised<T>(s: State<T>, settings: Settings, data: seq<T>) {
    if s.recording == [] then EndsWith(data, s.preBuffer) && s.silence == 0
    else
      var m := Min(s.silence, settings.maxPreBuffer);
      EndsWith(data, s.recording) && |s.preBuffer| >= m && EndsWith(data, s.preBuffer[|s.preBuffer| - m..])
  }

  lemma AddSynchronised<T>(s: State<T>, settings: Settings, data: seq<T>, chunk: Chunk<T>)
    requires IsSynchronised(s, settings, data)
    ensures IsSynchronised(s.Add(settings, chunk), settings, data + [chunk.data])
    ensures EndsWith(data + [chunk.data], s.Add(settings, chunk).recording)
  {
    hide IsSynchronised, EndsWith;
    if chunk.isSpeech {
      AddSpeech(s, settings, data, chunk.data);
    } else {
      AddSilence(s, settings, data, chunk.data);
    }
  }

  lemma AddSpeech<T>(s: State<T>, settings: Settings, data: seq<T>, x: T)
    requires IsSynchronised(s, settings, data)
    ensures
      var next := s.Add(settings, Chunk(x, true));
      IsSynchronised(next, settings, data + [x]) && EndsWith(data + [x], next.recording)
  {
    hide EndsWith;
    var next := s.Add(settings, Chunk(x, true));
    EndsWithSnoc(data, if s.recording == [] then s.preBuffer else s.recording, x);
    EndsWithNothing(data + [x]);
    assert next.preBuffer[|next.preBuffer|..] == [];
  }

  lemma AddSilence<T>(s: State<T>, settings: Settings, data: seq<T>, x: T)
    requires IsSynchronised(s, settings, data)
    ensures
      var next := s.Add(settings, Chunk(x, false));
      IsSynchronised(next, settings, data + [x]) && EndsWith(data + [x], next.recording)
  {
    hide EndsWith, LastOf;
    EndsWithNothing(data + [x]);
    if s.recording == [] {
      EndsWithOneMore(data, s.preBuffer, x, settings.maxPreBuffer);
    } else {
      TailOneMore(s.preBuffer, x, s.silence, settings.maxPreBuffer);
      EndsWithSnoc(data, s.recording, x);
      EndsWithOneMore(data, s.preBuffer[|s.preBuffer| - Min(s.silence, settings.maxPreBuffer)..], x,
        settings.maxPreBuffer);
    }
  }

  /** The part of the pre-buffer filled since the last speech grows by one chunk. */
  lemma TailOneMore<T>(pre: seq<T>, x: T, silence: nat, maxPreBuffer: nat)
    requires |pre| >= Min(silence, maxPreBuffer)
    ensures
      var next := LastOf(pre + [x], maxPreBuffer);
      var n := Min(silence + 1, maxPreBuffer);
      |next| >= n && next[|next| - n..] == LastOf(pre[|pre| - Min(silence, maxPreBuffer)..] + [x], maxPreBuffer)
  {
  }

  lemma EndsWithNothing<T>(data: seq<T>)
    ensures EndsWith(data, [])
  {
  }

  lemma EndsWithSnoc<T>(data: seq<T>, xs: seq<T>, x: T)
    requires EndsWith(data, xs)
    ensures EndsWith(data + [x], xs + [x])
  {
  }

  lemma EndsWithOneMore<T>(data: seq<T>, xs: seq<T>, x: T, n: nat)
    requires EndsWith(data, xs)
    ensures EndsWith(data + [x], LastOf(xs + [x], n))
  {
  }

  lemma ResetSynchronised<T>(s: State<T>, settings: Settings, data: seq<T>)
    requires IsSynchronised(s, settings, data) && s.recording != []
        && |s.preBuffer| <= settings.maxPreBuffer <= s.silence
    ensures IsSynchronised(s.Reset(), settings, data)
  {
  }

  lemma {:induction false} PreBufferIsBounded<T>(settings: Settings, stream: seq<Chunk<T>>)
    ensures |Session(settings, stream).preBuffer| <= settings.maxPreBuffer
  {
    if stream != [] {
      PreBufferIsBounded(settings, stream[..|stream| - 1]);
    }
  }

  lemma {:induction false} SessionIsSynchronised<T>(settings: Settings, stream: seq<Chunk<T>>)
    requires settings.maxPreBuffer <= settings.maxSilence + 1
    ensures IsSynchronised(Session(settings, stream), settings, Data(stream))
    ensures stream != [] ==> EndsWith(Data(stream), RecordingNow(settings, stream))
  {
    if stream != [] {
      hide IsSynchronised, EndsWith;
      var front, last := stream[..|stream| - 1], stream[|stream| - 1];
      var s := Session(settings, front);
      SessionIsSynchronised(settings, front);
      PreBufferIsBounded(settings, front);
      DataSnoc(stream);
      AddSynchronised(s, settings, Data(front), last);
      if s.Completes(settings, last) {
        ResetSynchronised(s.Add(settings, last), settings, Data(stream));
      }
    } else {
      assert Data(stream) == [];
    }
  }

  // ----- A larger pre-buffer tears recordings apart -----

  /** One silent chunk, one speech chunk, and silence from then on; chunk i carries the number i. */
  function OneWordStream(n: nat): (r: seq<Chunk<nat>>)
    ensures |r| == n && forall i :: 0 <= i < n ==> r[i] == Chunk(i, i == 1)
  {
    seq(n, i requires 0 <= i => Chunk(i, i == 1))
  }

  function Numbers(lo: nat, hi: nat): (r: seq<nat>)
    requires lo <= hi
    ensures |r| == hi - lo && forall i :: 0 <= i < |r| ==> r[i] == lo + i
  {
    seq(hi - lo, i requires 0 <= i => lo + i)
  }

  lemma OneWordStart(settings: Settings)
    requires settings.maxPreBuffer > settings.maxSilence + 1
    ensures Session(settings, OneWordStream(2)) == State([0] + Numbers(2, 2), Numbers(0, 2), 0)
  {
    assert OneWordStream(2)[..1] == OneWordStream(1) && OneWordStream(1)[..0] == [];
    assert Session(settings, OneWordStream(1)) == State([0], [], 0);
    assert [0] + Numbers(2, 2) == [0];
    assert Numbers(0, 2) == [0] + [1];
  }

  lemma {:induction false} OneWordSession(settings: Settings, n: nat)
    requires settings.maxPreBuffer > settings.maxSilence + 1 && 2 <= n <= settings.maxSilence + 2
    ensures Session(settings, OneWordStream(n)) == State([0] + Numbers(2, n), Numbers(0, n), n - 2)
  {
    if n == 2 {
      OneWordStart(settings);
    } else {
      assert OneWordStream(n)[..n - 1] == OneWordStream(n - 1);
      OneWordSession(settings, n - 1);
      NumbersSnoc(2, n - 1);
      NumbersSnoc(0, n - 1);
      assert [0] + Numbers(2, n - 1) + [n - 1] == [0] + (Numbers(2, n - 1) + [n - 1]);
    }
  }

  lemma NumbersSnoc(lo: nat, hi: nat)
    requires lo <= hi
    ensures Numbers(lo, hi + 1) == Numbers(lo, hi) + [hi]
  {
  }

  /** That stream up to the completion of its recording, and another speech chunk. */
  function TwoWordStream(settings: Settings): (r: seq<Chunk<nat>>)
    ensures r != []
  {
    OneWordStream(settings.maxSilence + 3) + [Chunk(settings.maxSilence + 3, true)]
  }

  /** The second recording holds chunk 0 and chunk 2, but not chunk 1 between them. */
  lemma SecondRecording(settings: Settings)
    requires settings.maxPreBuffer > settings.maxSilence + 1
    ensures RecordingNow(settings, TwoWordStream(settings))
         == [0] + Numbers(2, settings.maxSilence + 3) + [settings.maxSilence + 3]
  {
    var n := settings.maxSilence + 3;
    var silent, stream := OneWordStream(n), TwoWordStream(settings);
    assert stream[..n] == silent && silent[..n - 1] == OneWordStream(n - 1);
    OneWordSession(settings, n - 1);
    NumbersSnoc(2, n - 1);
    assert [0] + Numbers(2, n - 1) + [n - 1] == [0] + Numbers(2, n);
    assert Session(settings, silent) == State([0] + Numbers(2, n), [], 0);
  }

  lemma TornIsNotContiguous(recording: seq<nat>, data: seq<nat>)
    requires |recording| >= 2 && recording[0] == 0 && recording[1] == 2
    requires forall i :: 0 <= i < |data| ==> data[i] == i
    ensures !IsContiguous(recording, data)
  {
    forall a: nat | a + |recording| <= |data| ensures !IsStretchAt(recording, data, a) {
      assert data[a..a + |recording|][0] == a && data[a..a + |recording|][1] == a + 1;
    }
  }

  /** Every recording of every session is contiguous exactly when the pre-buffer is no longer than the
      silence that ends a recording. */
  lemma RecordingsAreContiguousIff(settings: Settings)
    ensures (forall stream: seq<Chunk<nat>> :: stream != [] ==>
        IsContiguous(RecordingNow(settings, stream), Data(stream)))
       <==> settings.maxPreBuffer <= settings.maxSilence + 1
  {
    if settings.maxPreBuffer <= settings.maxSilence + 1 {
      forall stream: seq<Chunk<nat>> | stream != []
        ensures IsContiguous(RecordingNow(settings, stream), Data(stream))
      {
        SessionIsSynchronised(settings, stream);
        assert IsStretchAt(RecordingNow(settings, stream), Data(stream), |stream| - |RecordingNow(settings, stream)|);
      }
    } else {
      SecondRecording(settings);
      TornIsNotContiguous(RecordingNow(settings, TwoWordStream(settings)), Data(TwoWordStream(settings)));
    }
  }
}
