/**
 The sink object: per-user buffers, flags and timers, updated write by write. Its state
 is at all times the segmentation of the whole bytes each user has sent, however cut.
 */
module VoiceSink {
  import opened VoiceSegments

  lemma {:induction false} RunIgnoresMore(stream: seq<byte>, data: seq<byte>, n: nat, user: UserId,
                                          speech: SpeechOracle, clock: ClockOracle)
    requires n * FRAME_BYTES <= |stream|
    ensures Run(stream + data, n, user, speech, clock) == Run(stream, n, user, speech, clock)
  {
    if n > 0 {
      RunIgnoresMore(stream, data, n - 1, user, speech, clock);
      assert FrameAt(stream + data, n - 1) == FrameAt(stream, n - 1);
    }
  }

  /** One user's entries in the sink's four tables, with what process_speech was given and the frame count. */
  datatype UserAudio = UserAudio(
    buffer: seq<byte>, speechActive: bool, silenceStart: real, frameBuf: seq<byte>,
    processed: seq<seq<byte>>, framesSeen: nat)

  const NEW_USER := UserAudio([], false, 0.0, [], [], 0)

  /** The buffer was handed over if it lasts more than half a second, and nothing else was. */
  predicate ProcessedOnce(was: UserAudio, now: UserAudio) {
    now.processed == was.processed + if Duration(was.buffer) > 0.5 then [was.buffer] else []
  }

  class VadSink {
    const hasVad: bool
    const speech: SpeechOracle
    const clock: ClockOracle
    var users: map<UserId, UserAudio>
    ghost var streams: map<UserId, seq<byte>>    // everything written, per user

    /** The user's state after the first n frames of the stream, the rest still to be framed. */
    ghost predicate AtFrame(u: UserAudio, user: UserId, stream: seq<byte>, n: nat) {
      && n * FRAME_BYTES <= |stream|
      && u.framesSeen == n && u.frameBuf == stream[n * FRAME_BYTES..]
      && var e := Run(stream, n, user, speech, clock);
         Vad(u.buffer, u.speechActive, u.silenceStart) == e.vad && u.processed == Handed(e.emitted)
    }

    /** Every whole frame of every user's stream has been taken, and nothing more. */
    ghost predicate Valid()
      reads this
    {
      && users.Keys == streams.Keys
      && (forall u | u in users :: AtFrame(users[u], u, streams[u], |streams[u]| / FRAME_BYTES))
    }

    constructor (hasVad: bool, speech: SpeechOracle, clock: ClockOracle)
      ensures Valid() && streams == map[]
      ensures this.hasVad == hasVad && this.speech == speech && this.clock == clock
    {
      this.hasVad, this.speech, this.clock := hasVad, speech, clock;
      users, streams := map[], map[];
    }

    ghost function StreamOf(user: UserId): seq<byte>
      reads this
    {
      if user in streams then streams[user] else []
    }

    /** However the bytes are cut into writes, the user's state is the segmentation of all of them. */
    method Write(data: seq<byte>, user: UserId)
      requires Valid()
      modifies this
      ensures Valid()
      ensures !hasVad ==> users == old(users) && streams == old(streams)
      ensures hasVad ==> streams == old(streams)[user := old(StreamOf(user)) + data]
      ensures hasVad ==> user in users && |users[user].frameBuf| < FRAME_BYTES
      ensures forall x | x != user :: (x in users <==> x in old(users)) && (x in users ==> users[x] == old(users[x]))
    {
      if !hasVad {
        return;
      }
      var u := if user in users then users[user] else NEW_USER;
      ghost var before := StreamOf(user);
      assert AtFrame(u, user, before, |before| / FRAME_BYTES);
      u := Reframe(u, user, data, before);
      users := users[user := u];
      streams := streams[user := before + data];
    }

    /** Append to the partial frame, then take whole frames off it. */
    method Reframe(u0: UserAudio, user: UserId, data: seq<byte>, ghost before: seq<byte>) returns (u: UserAudio)
      requires AtFrame(u0, user, before, |before| / FRAME_BYTES)
      ensures AtFrame(u, user, before + data, |before + data| / FRAME_BYTES)
      ensures |u.frameBuf| < FRAME_BYTES
    {
      u := u0.(frameBuf := u0.frameBuf + data);
      RunIgnoresMore(before, data, u.framesSeen, user, speech, clock);
      while |u.frameBuf| >= FRAME_BYTES
        invariant AtFrame(u, user, before + data, u.framesSeen)
        decreases |u.frameBuf|
      {
        u := TakeFrame(u, user, before + data);
      }
      NoFrameLeft(u, user, before + data);
    }

    lemma NoFrameLeft(u: UserAudio, user: UserId, stream: seq<byte>)
      requires AtFrame(u, user, stream, u.framesSeen) && |u.frameBuf| < FRAME_BYTES
      ensures u.framesSeen == |stream| / FRAME_BYTES
    {
    }

    /** One turn of the framing loop. */
    method TakeFrame(u0: UserAudio, user: UserId, ghost stream: seq<byte>) returns (u: UserAudio)
      requires AtFrame(u0, user, stream, u0.framesSeen) && |u0.frameBuf| >= FRAME_BYTES
      ensures AtFrame(u, user, stream, u0.framesSeen + 1)
      ensures |u.frameBuf| == |u0.frameBuf| - FRAME_BYTES
    {
      var n := u0.framesSeen;
      var frame := u0.frameBuf[..FRAME_BYTES];
      assert frame == FrameAt(stream, n);
      u := u0.(frameBuf := u0.frameBuf[FRAME_BYTES..], framesSeen := n + 1);
      ghost var emitted := Run(stream, n, user, speech, clock).emitted;
      assert emitted + [] == emitted;
      if speech(user, n) {
        u := u.(speechActive := true, silenceStart := 0.0, buffer := u.buffer + frame);
        if |u.buffer| > MAX_SPEECH_BYTES {
          HandedSnoc(emitted, u.buffer);
          u := EmitUser(u);
        }
      } else if u.speechActive {
        u := u.(buffer := u.buffer + frame);
        if u.silenceStart == 0.0 {
          u := u.(silenceStart := clock(user, n));
        } else if clock(user, n) - u.silenceStart > SILENCE_THRESHOLD {
          HandedSnoc(emitted, u.buffer);
          u := EmitUser(u);
        }
      }
    }

    /** Hand the buffer over if it is long enough, and start afresh. */
    static function EmitUser(u: UserAudio): UserAudio {
      u.(buffer := [], speechActive := false, silenceStart := 0.0,
         processed := u.processed + if |u.buffer| > MIN_SPEECH_BYTES then [u.buffer] else [])
    }

    /** The end of the recording: what is still buffered is emitted, for every user. */
    method Cleanup()
      modifies this`users
      ensures users.Keys == old(users.Keys)
      ensures forall x | x in users ::
                users[x] == if old(users[x]).buffer != [] then EmitUser(old(users[x])) else old(users[x])
      ensures forall x | x in users :: users[x].buffer == []
      ensures forall x | x in users :: ProcessedOnce(old(users[x]), users[x])
    {
      var todo := users.Keys;
      while todo != {}
        invariant todo <= users.Keys == old(users.Keys)
        invariant forall x | x in todo :: users[x] == old(users[x])
        invariant forall x | x in users && x !in todo ::
                    users[x] == if old(users[x]).buffer != [] then EmitUser(old(users[x])) else old(users[x])
        decreases |todo|
      {
        var x :| x in todo;
        if users[x].buffer != [] {
          users := users[x := EmitUser(users[x])];
        }
        todo := todo - {x};
      }
      forall x | x in users ensures ProcessedOnce(old(users[x]), users[x]) {
        HandedIffOverHalfASecond(old(users[x]).buffer);
      }
    }
  }

  /** Two sinks with the same answers that were sent the same bytes, in whatever writes, agree. */
  lemma CuttingDoesNotMatter(a: VadSink, b: VadSink, user: UserId)
    requires a.Valid() && b.Valid() && a.speech == b.speech && a.clock == b.clock
    requires user in a.streams && user in b.streams && a.streams[user] == b.streams[user]
    ensures a.users[user] == b.users[user]
    ensures |a.users[user].frameBuf| < FRAME_BYTES
  {
    assert a.AtFrame(a.users[user], user, a.streams[user], |a.streams[user]| / FRAME_BYTES);
    assert b.AtFrame(b.users[user], user, b.streams[user], |b.streams[user]| / FRAME_BYTES);
  }

  /** At all times a user's handed-over audio is that of the segments longer than half a second, and no other. */
  lemma HandedIsTheLongSegments(sink: VadSink, user: UserId)
    requires sink.Valid() && user in sink.users
    ensures var stream := sink.streams[user];
            var long := LongCuts(GatherRun(|stream| / FRAME_BYTES, user, sink.speech, sink.clock).cuts);
            Within(long, stream) && sink.users[user].processed == CutAudio(stream, long)
  {
    var stream := sink.streams[user];
    assert sink.AtFrame(sink.users[user], user, stream, |stream| / FRAME_BYTES);
    LongSegmentsAreHanded(stream, |stream| / FRAME_BYTES, user, sink.speech, sink.clock);
  }
}
