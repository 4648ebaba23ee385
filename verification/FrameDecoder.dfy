/** The incremental length-prefixed decoder of app/tasks/definitions/frame_decoder. */
module FrameDecoder {
  import opened Core

  datatype State = State(buffer: string, expected: Option<nat>)

  datatype Error = MalformedLength | TooLarge

  datatype Outcome = Fed(frames: seq<string>, state: State) | Failed(error: Error)

  const Idle := State("", None)

  // ----- Decimal prefixes -----

  predicate Digit(c: char) { '0' <= c <= '9' }

  predicate AllDigits(s: string) { forall i :: 0 <= i < |s| ==> Digit(s[i]) }

  /** `int(s)` */
  function Value(s: string): nat
    requires AllDigits(s)
  {
    if s == "" then 0 else 10 * Value(s[..|s| - 1]) + (s[|s| - 1] - '0') as nat
  }

  /** `_valid_prefix` */
  predicate ValidPrefix(s: string) {
    s != "" && AllDigits(s) && (s == "0" || s[0] != '0')
  }

  /** `_validate_partial_prefix` */
  function PartialError(max: nat, s: string): Option<Error> {
    if s == "" then None
    else if !AllDigits(s) then Some(MalformedLength)
    else if s[0] == '0' && |s| > 1 then Some(MalformedLength)
    else if Value(s) > max then Some(TooLarge)
    else None
  }

  /** `buffer.find(":")`, with the length of the buffer for "not found". */
  function FindColon(s: string): (i: nat)
    ensures i <= |s|
    ensures i < |s| ==> s[i] == ':'
    ensures forall k :: 0 <= k < i ==> s[k] != ':'
  {
    if s == "" || s[0] == ':' then 0 else 1 + FindColon(s[1..])
  }

  // ----- One call of feed, as a function -----

  function Prepend(frames: seq<string>, o: Outcome): Outcome {
    if o.Fed? then Fed(frames + o.frames, o.state) else o
  }

  function Scan(max: nat, st: State): Outcome
    decreases |st.buffer|, if st.expected.Some? then 1 else 0
  {
    match st.expected
    case None =>
      var i := FindColon(st.buffer);
      if i == |st.buffer| then
        var error := PartialError(max, st.buffer);
        if error.Some? then Failed(error.value) else Fed([], st)
      else
        var prefix := st.buffer[..i];
        if !ValidPrefix(prefix) then Failed(MalformedLength)
        else if Value(prefix) > max then Failed(TooLarge)
        else Scan(max, State(st.buffer[i + 1..], Some(Value(prefix))))
    case Some(n) =>
      if |st.buffer| < n then Fed([], st)
      else Prepend([st.buffer[..n]], Scan(max, State(st.buffer[n..], None)))
  }

  function Extend(st: State, chunk: string): State { st.(buffer := st.buffer + chunk) }

  function FeedChunk(max: nat, st: State, chunk: string): Outcome { Scan(max, Extend(st, chunk)) }

  function FeedAll(max: nat, st: State, chunks: seq<string>): Outcome
    decreases |chunks|
  {
    if chunks == [] then Fed([], st)
    else
      var first := FeedChunk(max, st, chunks[0]);
      if first.Failed? then first
      else Prepend(first.frames, FeedAll(max, first.state, chunks[1..]))
  }

  function Join(chunks: seq<string>): string {
    if chunks == [] then "" else chunks[0] + Join(chunks[1..])
  }

  /** What `finish` accepts. */
  predicate Finishes(st: State) { st == Idle }

  /** The scan of a length. */
  lemma {:induction false} ScanLength(max: nat, buffer: string)
    ensures var i := FindColon(buffer);
      && (i == |buffer| ==>
            Scan(max, State(buffer, None)) ==
              match PartialError(max, buffer) case None => Fed([], State(buffer, None)) case Some(e) => Failed(e))
      && (i < |buffer| ==>
            Scan(max, State(buffer, None)) ==
              if !ValidPrefix(buffer[..i]) then Failed(MalformedLength)
              else if Value(buffer[..i]) > max then Failed(TooLarge)
              else Scan(max, State(buffer[i + 1..], Some(Value(buffer[..i])))))
  {
    hide Value, PartialError;
  }

  /** The scan of a frame. */
  lemma {:induction false} ScanBody(max: nat, buffer: string, n: nat)
    ensures Scan(max, State(buffer, Some(n))) ==
      if |buffer| < n then Fed([], State(buffer, Some(n)))
      else Prepend([buffer[..n]], Scan(max, State(buffer[n..], None)))
  {
  }

  // ----- States between calls -----

  /** A state in which a call can leave the decoder: nothing in it could be decoded or refused yet. */
  predicate Resting(max: nat, st: State) {
    match st.expected
    case None => FindColon(st.buffer) == |st.buffer| && PartialError(max, st.buffer).None?
    case Some(n) => |st.buffer| < n <= max
  }

  lemma {:induction false} ScanRests(max: nat, st: State)
    requires st.expected.Some? ==> st.expected.value <= max
    ensures var o := Scan(max, st); o.Fed? ==> Resting(max, o.state)
    decreases |st.buffer|, if st.expected.Some? then 1 else 0
  {
    match st.expected
    case None =>
      var i := FindColon(st.buffer);
      if i < |st.buffer| && ValidPrefix(st.buffer[..i]) && Value(st.buffer[..i]) <= max {
        ScanRests(max, State(st.buffer[i + 1..], Some(Value(st.buffer[..i]))));
      }
    case Some(n) =>
      if n <= |st.buffer| {
        ScanRests(max, State(st.buffer[n..], None));
      }
  }

  lemma RestingIsStable(max: nat, st: State)
    requires Resting(max, st)
    ensures Scan(max, st) == Fed([], st)
  {
  }

  // ----- Chunk invariance -----

  lemma {:induction false} ValueGrows(s: string, t: string)
    requires AllDigits(s + t)
    ensures AllDigits(s) && Value(s) <= Value(s + t)
    decreases |t|
  {
    assert forall i :: 0 <= i < |s| ==> (s + t)[i] == s[i];
    if t == "" {
      assert s + t == s;
    } else {
      assert (s + t)[..|s + t| - 1] == s + t[..|t| - 1];
      assert AllDigits(s + t[..|t| - 1]);
      ValueGrows(s, t[..|t| - 1]);
    }
  }

  lemma FindColonAppend(s: string, t: string)
    ensures FindColon(s) < |s| ==> FindColon(s + t) == FindColon(s)
    ensures FindColon(s) == |s| ==> FindColon(s + t) == |s| + FindColon(t)
  {
    if FindColon(s) < |s| {
      assert (s + t)[FindColon(s)] == ':';
      assert forall k :: 0 <= k < |s| ==> (s + t)[k] == s[k];
    } else {
      assert forall k :: 0 <= k < |s| ==> (s + t)[k] == s[k];
      assert forall k :: 0 <= k < |t| ==> (s + t)[|s| + k] == t[k];
    }
  }

  lemma {:induction false} RefusedPrefix(max: nat, buffer: string)
    requires var prefix := buffer[..FindColon(buffer)]; PartialError(max, prefix).Some?
    ensures Scan(max, State(buffer, None)).Failed?
  {
    hide Value;
    var i := FindColon(buffer);
    assert i == |buffer| ==> buffer[..i] == buffer;
  }

  /** What makes a partial prefix unacceptable stays in every longer one. */
  lemma {:induction false} RefusalGrows(max: nat, s: string, t: string)
    requires PartialError(max, s).Some?
    ensures PartialError(max, s + t).Some?
  {
    hide Value;
    assert (s + t)[0] == s[0];
    if AllDigits(s + t) {
      ValueGrows(s, t);
    }
  }

  /** A partial prefix is refused early only if no continuation could make it acceptable. */
  lemma {:induction false} EarlyRefusalIsFinal(max: nat, s: string, t: string)
    requires FindColon(s) == |s| && PartialError(max, s).Some?
    ensures Scan(max, State(s + t, None)).Failed?
  {
    hide Scan, PartialError, FindColon;
    FindColonAppend(s, t);
    var i := FindColon(s + t);
    assert (s + t)[..i] == s + t[..i - |s|];
    RefusalGrows(max, s, t[..i - |s|]);
    RefusedPrefix(max, s + t);
  }

  /** Reading `a` and then `b` is reading `a + b`: same verdict, same frames, same state. */
  lemma {:induction false} ScanExtends(max: nat, st: State, b: string)
    ensures var first, whole := Scan(max, st), Scan(max, Extend(st, b));
      if first.Fed? then whole == Prepend(first.frames, FeedChunk(max, first.state, b)) else whole.Failed?
    decreases |st.buffer|, if st.expected.Some? then 1 else 0
  {
    match st.expected
    case None =>
      var i := FindColon(st.buffer);
      FindColonAppend(st.buffer, b);
      if i == |st.buffer| {
        if PartialError(max, st.buffer).Some? {
          EarlyRefusalIsFinal(max, st.buffer, b);
        } else {
          PrependNothing(FeedChunk(max, st, b));
        }
      } else {
        assert (st.buffer + b)[..i] == st.buffer[..i];
        assert (st.buffer + b)[i + 1..] == st.buffer[i + 1..] + b;
        if ValidPrefix(st.buffer[..i]) && Value(st.buffer[..i]) <= max {
          ScanExtends(max, State(st.buffer[i + 1..], Some(Value(st.buffer[..i]))), b);
        }
      }
    case Some(n) =>
      if |st.buffer| < n {
        PrependNothing(FeedChunk(max, st, b));
      } else {
        assert (st.buffer + b)[..n] == st.buffer[..n];
        assert (st.buffer + b)[n..] == st.buffer[n..] + b;
        var rest := State(st.buffer[n..], None);
        ScanExtends(max, rest, b);
        if Scan(max, rest).Fed? {
          PrependTwice([st.buffer[..n]], Scan(max, rest).frames, FeedChunk(max, Scan(max, rest).state, b));
        }
      }
  }

  lemma PrependNothing(o: Outcome)
    ensures Prepend([], o) == o
  {
    assert o.Fed? ==> [] + o.frames == o.frames;
  }

  lemma PrependTwice(f: seq<string>, g: seq<string>, o: Outcome)
    ensures Prepend(f, Prepend(g, o)) == Prepend(f + g, o)
  {
    assert o.Fed? ==> f + (g + o.frames) == (f + g) + o.frames;
  }

  lemma ChunkInvariance(max: nat, st: State, a: string, b: string)
    ensures var first, whole := FeedChunk(max, st, a), FeedChunk(max, st, a + b);
      if first.Fed? then whole == Prepend(first.frames, FeedChunk(max, first.state, b)) else whole.Failed?
  {
    ScanExtends(max, Extend(st, a), b);
    assert Extend(Extend(st, a), b) == Extend(st, a + b);
  }

  /** Any chunking of a stream gives the verdict, frames and state of the stream in one piece. */
  lemma {:induction false} AnyChunking(max: nat, st: State, chunks: seq<string>)
    requires Resting(max, st)
    ensures var parts, whole := FeedAll(max, st, chunks), FeedChunk(max, st, Join(chunks));
      if parts.Fed? then whole == parts else whole.Failed?
    decreases |chunks|
  {
    if chunks == [] {
      assert Extend(st, "") == st;
      RestingIsStable(max, st);
    } else {
      var first := FeedChunk(max, st, chunks[0]);
      ChunkInvariance(max, st, chunks[0], Join(chunks[1..]));
      if first.Fed? {
        ScanRests(max, Extend(st, chunks[0]));
        AnyChunking(max, first.state, chunks[1..]);
      }
    }
  }

  // ----- Round trip and canonicity -----

  function Digits(n: nat): (s: string)
    ensures ValidPrefix(s) && Value(s) == n
  {
    if n < 10 then
      var s := [('0' as int + n) as char];
      assert s[..0] == "";
      s
    else
      var s := Digits(n / 10) + [('0' as int + n % 10) as char];
      assert s[..|s| - 1] == Digits(n / 10);
      s
  }

  lemma {:induction false} PrefixIsCanonical(s: string)
    requires ValidPrefix(s)
    ensures Digits(Value(s)) == s
    decreases |s|
  {
    var front, last := s[..|s| - 1], s[|s| - 1];
    if |s| == 1 {
      assert front == "" && s == [last];
    } else {
      assert front[0] == s[0];
      PrefixIsCanonical(front);
      PositiveValue(front);
      assert Value(s) / 10 == Value(front) && Value(s) % 10 == (last - '0') as nat;
      assert s == front + [last];
    }
  }

  lemma {:induction false} PositiveValue(s: string)
    requires ValidPrefix(s) && s[0] != '0'
    ensures Value(s) > 0
    decreases |s|
  {
    if |s| > 1 {
      assert s[..|s| - 1][0] == s[0];
      PositiveValue(s[..|s| - 1]);
    }
  }

  function Encode(frame: string): string { Digits(|frame|) + ":" + frame }

  function Stream(frames: seq<string>): string {
    if frames == [] then "" else Encode(frames[0]) + Stream(frames[1..])
  }

  /** The characters a state has consumed without returning them, as they stood in the stream. */
  function Residue(st: State): string {
    match st.expected
    case None => st.buffer
    case Some(n) => Digits(n) + ":" + st.buffer
  }

  lemma StreamCons(frame: string, frames: seq<string>, tail: string)
    ensures Stream([frame] + frames) + tail == Encode(frame) + (Stream(frames) + tail)
  {
    hide Encode;
    assert ([frame] + frames)[1..] == frames;
    assert (Encode(frame) + Stream(frames)) + tail == Encode(frame) + (Stream(frames) + tail);
  }

  lemma EncodeThen(n: nat, buffer: string)
    requires n <= |buffer|
    ensures Encode(buffer[..n]) + buffer[n..] == Digits(n) + ":" + buffer
  {
    hide Digits;
    assert buffer == buffer[..n] + buffer[n..];
  }

  /** Nothing is lost, invented or respelled: the input is the encoded frames plus the residue. */
  lemma {:induction false} ScanConserves(max: nat, st: State)
    ensures var o := Scan(max, st);
      o.Fed? ==> Residue(st) == Stream(o.frames) + Residue(o.state)
    decreases |st.buffer|, if st.expected.Some? then 1 else 0
  {
    hide Digits, Encode;
    match st.expected
    case None =>
      var i := FindColon(st.buffer);
      if i < |st.buffer| && ValidPrefix(st.buffer[..i]) && Value(st.buffer[..i]) <= max {
        var next := State(st.buffer[i + 1..], Some(Value(st.buffer[..i])));
        ScanConserves(max, next);
        PrefixIsCanonical(st.buffer[..i]);
        assert st.buffer == st.buffer[..i] + ":" + st.buffer[i + 1..];
      }
    case Some(n) =>
      if n <= |st.buffer| {
        var rest := State(st.buffer[n..], None);
        ScanConserves(max, rest);
        var o := Scan(max, rest);
        if o.Fed? {
          StreamCons(st.buffer[..n], o.frames, Residue(o.state));
          EncodeThen(n, st.buffer);
        }
      }
  }

  /** The stream goes wrong at `rest`: its length is no canonical number, or one beyond the maximum. */
  predicate GoesWrong(max: nat, rest: string, error: Error) {
    var length := rest[..FindColon(rest)];
    if ValidPrefix(length) then error == TooLarge && Value(length) > max else error == MalformedLength
  }

  ghost predicate Explains(max: nat, input: string, error: Error, frames: seq<string>, rest: string) {
    && input == Stream(frames) + rest
    && (forall i :: 0 <= i < |frames| ==> |frames[i]| <= max)
    && GoesWrong(max, rest, error)
  }

  lemma {:induction false} LengthGoesWrong(max: nat, buffer: string)
    requires var i := FindColon(buffer);
      if i == |buffer| then PartialError(max, buffer).Some?
      else !ValidPrefix(buffer[..i]) || Value(buffer[..i]) > max
    ensures Stream([]) + buffer == buffer
    ensures Scan(max, State(buffer, None)).Failed? && GoesWrong(max, buffer, Scan(max, State(buffer, None)).error)
  {
    hide Value, Scan;
    ScanLength(max, buffer);
    assert buffer[..|buffer|] == buffer;
  }

  /** A refused input is a stream of good frames followed by the length that was refused. */
  lemma {:induction false} RefusalIsExplained(max: nat, st: State) returns (frames: seq<string>, rest: string)
    requires st.expected.Some? ==> st.expected.value <= max
    requires Scan(max, st).Failed?
    ensures Explains(max, Residue(st), Scan(max, st).error, frames, rest)
    decreases |st.buffer|, if st.expected.Some? then 1 else 0
  {
    hide Digits, Encode, Value, Scan, FindColon, GoesWrong, Stream;
    match st.expected
    case None =>
      var i := FindColon(st.buffer);
      ScanLength(max, st.buffer);
      if i < |st.buffer| && ValidPrefix(st.buffer[..i]) && Value(st.buffer[..i]) <= max {
        frames, rest := RefusalIsExplained(max, State(st.buffer[i + 1..], Some(Value(st.buffer[..i]))));
        PrefixIsCanonical(st.buffer[..i]);
        assert st.buffer == st.buffer[..i] + ":" + st.buffer[i + 1..];
      } else {
        frames, rest := [], st.buffer;
        LengthGoesWrong(max, st.buffer);
      }
    case Some(n) =>
      ScanBody(max, st.buffer, n);
      var good, bad := RefusalIsExplained(max, State(st.buffer[n..], None));
      StreamCons(st.buffer[..n], good, bad);
      EncodeThen(n, st.buffer);
      frames, rest := [st.buffer[..n]] + good, bad;
  }

  lemma NoColonInDigits(s: string, t: string)
    requires AllDigits(s)
    ensures FindColon(s + ":" + t) == |s|
  {
    assert FindColon(s) == |s|;
    FindColonAppend(s, ":" + t);
    assert s + ":" + t == s + (":" + t);
  }

  lemma {:induction false} ScanPrefix(max: nat, prefix: string, rest: string)
    requires ValidPrefix(prefix) && Value(prefix) <= max
    ensures Scan(max, State(prefix + ":" + rest, None)) == Scan(max, State(rest, Some(Value(prefix))))
  {
    hide Value;
    var buffer := prefix + ":" + rest;
    NoColonInDigits(prefix, rest);
    assert buffer[..|prefix|] == prefix && buffer[|prefix| + 1..] == rest;
  }

  lemma {:induction false} ScanFrame(max: nat, frame: string, rest: string)
    ensures Scan(max, State(frame + rest, Some(|frame|))) == Prepend([frame], Scan(max, State(rest, None)))
  {
    assert (frame + rest)[..|frame|] == frame && (frame + rest)[|frame|..] == rest;
  }

  lemma NothingDecodes(max: nat)
    ensures Scan(max, State("", None)) == Fed([], Idle)
  {
  }

  lemma DigitsAreValid(n: nat)
    ensures ValidPrefix(Digits(n)) && AllDigits(Digits(n)) && Value(Digits(n)) == n
  {
  }

  lemma {:induction false} StreamDecodes(max: nat, frames: seq<string>)
    requires forall i :: 0 <= i < |frames| ==> |frames[i]| <= max
    ensures Scan(max, State(Stream(frames), None)) == Fed(frames, Idle)
    decreases |frames|
  {
    hide Scan, Value, ValidPrefix;
    if frames == [] {
      NothingDecodes(max);
    } else {
      var frame, rest := frames[0], Stream(frames[1..]);
      assert Stream(frames) == Digits(|frame|) + ":" + (frame + rest);
      DigitsAreValid(|frame|);
      ScanPrefix(max, Digits(|frame|), frame + rest);
      ScanFrame(max, frame, rest);
      StreamDecodes(max, frames[1..]);
      assert [frame] + frames[1..] == frames;
    }
  }

  /** Frames within the maximum come back from their encoding under any chunking. */
  lemma RoundTrip(max: nat, frames: seq<string>, chunks: seq<string>)
    requires forall i :: 0 <= i < |frames| ==> |frames[i]| <= max
    requires Join(chunks) == Stream(frames)
    ensures FeedAll(max, Idle, chunks) == Fed(frames, Idle)
  {
    StreamDecodes(max, frames);
    AnyChunking(max, Idle, chunks);
    assert Extend(Idle, Stream(frames)) == State(Stream(frames), None);
  }

  /** A stream that is accepted through `finish` is the encoding of the frames it returned. */
  lemma OnlyEncodingsAreAccepted(max: nat, chunks: seq<string>)
    requires var o := FeedAll(max, Idle, chunks); o.Fed? && Finishes(o.state)
    ensures Join(chunks) == Stream(FeedAll(max, Idle, chunks).frames)
  {
    AnyChunking(max, Idle, chunks);
    ScanConserves(max, Extend(Idle, Join(chunks)));
    assert Extend(Idle, Join(chunks)).buffer == Join(chunks);
  }

  lemma {:induction false} DigitsGrow(m: nat, n: nat)
    requires m <= n
    ensures |Digits(m)| <= |Digits(n)|
  {
    if n >= 10 {
      if m >= 10 {
        DigitsGrow(m / 10, n / 10);
      }
    }
  }

  /** The buffer kept between calls is bounded by the maximum frame or by its digit count. */
  lemma RetainedBufferIsBounded(max: nat, st: State)
    requires Resting(max, st)
    ensures if st.expected.Some? then |st.buffer| < max else |st.buffer| <= |Digits(max)|
  {
    if st.expected.None? && st.buffer != "" {
      PrefixIsCanonical(st.buffer);
      DigitsGrow(Value(st.buffer), max);
    }
  }

  // ----- The decoder object -----

  class LengthPrefixedDecoder {
    const maximum: nat
    var buffer: string
    var expected: Option<nat>

    ghost function Contents(): State
      reads this
    {
      State(buffer, expected)
    }

    ghost predicate Valid()
      reads this
    {
      Resting(maximum, Contents())
    }

    constructor (maxFrameSize: nat)
      requires 0 < maxFrameSize <= 1_000_000
      ensures Valid() && maximum == maxFrameSize && Contents() == Idle
    {
      maximum := maxFrameSize;
      buffer, expected := "", None;
    }

    /** None stands for the ValueError, after which the decoder has been reset. */
    method Feed(chunk: string) returns (result: Option<seq<string>>)
      requires Valid()
      modifies this
      ensures Valid()
      ensures match FeedChunk(maximum, old(Contents()), chunk)
              case Fed(frames, state) => result == Some(frames) && Contents() == state
              case Failed(_) => result == None && Contents() == Idle
    {
      hide Scan, Value, PartialError, FindColon;
      buffer := buffer + chunk;
      var frames: seq<string> := [];
      ghost var whole := Scan(maximum, Contents());
      ScanRests(maximum, Contents());
      PrependNothing(whole);
      while true
        invariant expected.Some? ==> expected.value <= maximum
        invariant whole == Prepend(frames, Scan(maximum, Contents()))
        decreases |buffer|, if expected.Some? then 1 else 0
      {
        if expected.None? {
          ScanLength(maximum, buffer);
          var separator := FindColon(buffer);
          if separator == |buffer| {
            if PartialError(maximum, buffer).Some? {
              Reset();
              return None;
            }
            break;
          }
          var prefix := buffer[..separator];
          if !ValidPrefix(prefix) || Value(prefix) > maximum {
            Reset();
            return None;
          }
          buffer := buffer[separator + 1..];
          expected := Some(Value(prefix));
        }
        ScanBody(maximum, buffer, expected.value);
        if |buffer| < expected.value {
          break;
        }
        PrependTwice(frames, [buffer[..expected.value]],
                     Scan(maximum, State(buffer[expected.value..], None)));
        frames := frames + [buffer[..expected.value]];
        buffer := buffer[expected.value..];
        expected := None;
      }
      assert frames + [] == frames;
      result := Some(frames);
    }

    /** False stands for the ValueError of a truncated stream. */
    method Finish() returns (ok: bool)
      requires Valid()
      modifies this
      ensures Valid() && Contents() == Idle
      ensures ok <==> Finishes(old(Contents()))
    {
      ok := true;
      if buffer != "" || expected.Some? {
        Reset();
        ok := false;
      }
    }

    method Reset()
      modifies this
      ensures Contents() == Idle && Valid()
    {
      buffer, expected := "", None;
    }
  }
}
