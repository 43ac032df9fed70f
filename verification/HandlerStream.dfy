/** The stream object a handler opens with `async with`. */
module HandlerStream {
  import opened Types
  import opened Protocol
  import opened Streams

  /** How an awaited send to the channel or the log ends: done, done and then struck by
      a fault, or struck before it is done. */
  datatype Outcome = Sent | SentThenRaised | Unsent

  /** The next outcome of a script; after its end everything is sent. */
  function OutcomeOf(script: seq<Outcome>): Outcome {
    if script == [] then Sent else script[0]
  }

  function Rest(script: seq<Outcome>): seq<Outcome> {
    if script == [] then [] else script[1..]
  }

  /** The broadcast channel and log that a stream writes to. The script is arbitrary, so
      it stands for every way in which the sends may fail. */
  class Sink {
    var frames: seq<Frame>
    var published: seq<Event>
    var script: seq<Outcome>

    constructor (script: seq<Outcome>)
      ensures frames == [] && published == [] && this.script == script
    {
      frames, published, this.script := [], [], script;
    }

    method Send(frame: Frame) returns (raised: bool)
      requires IsStreamFrame(frame)
      modifies this`frames, this`script
      ensures raised <==> !OutcomeOf(old(script)).Sent?
      ensures script == Rest(old(script))
      ensures frames == if OutcomeOf(old(script)).Unsent? then old(frames) else old(frames) + [frame]
      ensures !OutcomeOf(old(script)).Unsent? ==>
        forall sid :: LifeOf(frames, sid) == Streams.Next(LifeOf(old(frames), sid), frame, sid)
    {
      var outcome := OutcomeOf(script);
      script := Rest(script);
      if !outcome.Unsent? {
        forall sid { LifeOfAppend(frames, frame, sid); }
        frames := frames + [frame];
      }
      raised := !outcome.Sent?;
    }

    method Publish(event: Event) returns (raised: bool)
      modifies this`published, this`script
      ensures raised <==> !OutcomeOf(old(script)).Sent?
      ensures script == Rest(old(script))
      ensures published == old(published) + if OutcomeOf(old(script)).Unsent? then [] else [event]
    {
      var outcome := OutcomeOf(script);
      script := Rest(script);
      if !outcome.Unsent? { published := published + [event]; }
      raised := !outcome.Sent?;
    }
  }

  function Concat(parts: seq<string>): string {
    if parts == [] then "" else Concat(parts[..|parts| - 1]) + parts[|parts| - 1]
  }

  class Stream {
    const sink: Sink
    const target: Kind
    const thread: Id
    const run: RunId
    const author: Id
    var buffer: seq<string>
    var eventId: Id
    ghost var lost: nat   // how much of the buffer's text was not sent since the stream was entered

    constructor (sink: Sink, target: Kind, thread: Id, run: RunId, author: Id)
      ensures this.sink == sink && this.target == target && this.thread == thread && this.run == run
        && this.author == author
      ensures buffer == [] && eventId == "" && lost == 0
    {
      this.sink, this.target, this.thread, this.run, this.author := sink, target, thread, run, author;
      buffer, eventId, lost := [], "", 0;
    }

    /** The wire shows this stream open, and its deltas spell the buffer exactly if none
        of the buffer's text was lost. */
    ghost predicate Open()
      reads this, sink
    {
      var life := LifeOf(sink.frames, eventId);
      && life.Live? && life.run == run
      && |Concat(buffer)| == |life.text| + lost && (lost == 0 ==> Concat(buffer) == life.text)
    }

    twostate predicate OthersKept()
      reads this, sink
    {
      forall sid | sid != eventId :: LifeOf(sink.frames, sid) == LifeOf(old(sink.frames), sid)
    }

    /** A new id each time; the buffer is not cleared, so a stream that is entered again
        has not sent what it still carries. */
    method Enter(id: Id) returns (raised: bool)
      requires LifeOf(sink.frames, id) == Absent
      modifies this`eventId, this`lost, sink`frames, sink`script
      ensures eventId == id && lost == |Concat(buffer)| && OthersKept()
      ensures var outcome, life := OutcomeOf(old(sink.script)), LifeOf(sink.frames, id);
        && sink.script == Rest(old(sink.script)) && (raised <==> !outcome.Sent?)
        && sink.frames == old(sink.frames) + (if outcome.Unsent? then [] else [StartFrame(run, id)])
        && if outcome.Unsent? then life == Absent else life == Live(run, "") && Open()
    {
      eventId, lost := id, |Concat(buffer)|;
      raised := sink.Send(StartFrame(run, id));
    }

    /** Empty text is neither buffered nor sent. Any other text is in the buffer before
        its delta is sent, so it is lost to the wire exactly when a fault strikes
        before that. */
    method Append(text: string) returns (raised: bool)
      requires Open()
      modifies this`buffer, this`lost, sink`frames, sink`script
      ensures Open() && OthersKept()
      ensures Concat(buffer) == old(Concat(buffer)) + text
      ensures if text == "" then
                !raised && lost == old(lost) && sink.frames == old(sink.frames) && sink.script == old(sink.script)
              else
                var outcome := OutcomeOf(old(sink.script));
                && sink.script == Rest(old(sink.script)) && (raised <==> !outcome.Sent?)
                && lost == old(lost) + (if outcome.Unsent? then |text| else 0)
                && sink.frames == old(sink.frames) + if outcome.Unsent? then [] else [DeltaFrame(eventId, text)]
    {
      if text == "" { return false; }
      assert (buffer + [text])[..|buffer|] == buffer;
      buffer := buffer + [text];
      ghost var outcome := OutcomeOf(sink.script);
      raised := sink.Send(DeltaFrame(eventId, text));
      if outcome.Unsent? { lost := lost + |text|; }
    }

    /** Leaving the block sends the end frame, with the code of the exception if there
        is one; a deadline reaches the block as a cancellation. Only without one, and
        only if the send did not raise, an event follows: of the stream's id, thread,
        run and author, with the text of the buffer, which is that of the deltas
        exactly when no text was lost. Until its end frame is sent the stream is
        open. */
    method Exit(exception: Option<Cause>, createdAt: int) returns (raised: bool)
      requires Open()
      modifies sink
      ensures OthersKept()
      ensures var first, second := OutcomeOf(old(sink.script)), OutcomeOf(Rest(old(sink.script)));
        (raised <==> !first.Sent? || (exception.None? && !second.Sent?))
      ensures var unsent, text := OutcomeOf(old(sink.script)).Unsent?, LifeOf(old(sink.frames), eventId).text;
        if unsent then sink.frames == old(sink.frames) && Open()
        else
          && |sink.frames| == |old(sink.frames)| + 1 && old(sink.frames) <= sink.frames
          && var end := sink.frames[|old(sink.frames)|];
          && end.EndFrame? && end.sid == eventId && LifeOf(sink.frames, eventId) == Ended(run, end.error, text)
          && match exception
             case None => end.error.None?
             case Some(Raised) => end.error == Some(CodeHandlerError)
             case Some(RaisedTimeout) => end.error == Some(CodeTimeout)
             case Some(CancelRequested) => end.error == Some(CodeCancelled)
             case Some(DeadlinePassed) => end.error == Some(CodeCancelled)
      ensures var first, second := OutcomeOf(old(sink.script)), OutcomeOf(Rest(old(sink.script)));
        if exception.Some? || !first.Sent? || second.Unsent? then sink.published == old(sink.published)
        else
          && |sink.published| == |old(sink.published)| + 1 && old(sink.published) <= sink.published
          && var e := sink.published[|old(sink.published)|];
          && e.id == eventId && e.thread == thread && e.run == Some(run) && e.author == author
          && e.kind == target && e.createdAt == createdAt && e.recipients.None? && e.streamed
          && e.text == Concat(buffer)
          && (e.text == LifeOf(sink.frames, eventId).text <==> lost == 0)
    {
      if exception.None? {
        raised := sink.Send(EndFrame(eventId, None));
        if raised { return; }
        var event := Event(eventId, createdAt, thread, Some(run), author, None, target, Concat(buffer), true);
        raised := sink.Publish(event);
        return;
      }
      raised := sink.Send(EndFrame(eventId, Some(CodeFor(exception.value))));
    }
  }
}
