/** Recording a show of DMX frames to a text file, and playing it back. */
module Shows {
  import opened Sequences
  import opened Dmx
  import opened PreferenceStore
  import opened PortKeys

  const HEADER := "OLA Show"
  const UINT32: int := 0x1_0000_0000

  /** A frame as it arrives at the recorder; the time is in microseconds, and zero is the time of a clock not set. */
  datatype Recorded = Recorded(time: int, universe: nat, data: DmxBuffer)

  datatype State = Ok | InvalidLine | EndOfFile

  /** What playing a show amounts to: frames sent, and time let pass, in milliseconds. */
  datatype Event = Sent(universe: nat, data: DmxBuffer) | Waited(ms: nat)

  // ---------- one line ----------

  function IntText(n: int): (s: string)
    ensures s != ""
  {
    if n < 0 then "-" + Dec(0 - n) else Dec(n)
  }

  function BufferText(data: seq<byte>): string {
    if data == [] then "" else if |data| == 1 then Dec(data[0] as nat)
    else BufferText(data[..|data| - 1]) + "," + Dec(data[|data| - 1] as nat)
  }

  function FrameText(universe: nat, data: DmxBuffer): string {
    Dec(universe) + " " + BufferText(data)
  }

  /** StringToInt to an `unsigned int`, with nothing allowed after the number. */
  function StrictUnsigned(s: string): Option<nat> {
    var t := SkipSpace(s);
    var rest := if t != "" && t[0] in {'+', '-'} then t[1..] else t;
    var digits := LeadingDigits(rest);
    if digits == "" || |digits| < |rest| then None
    else
      var n := if t[0] == '-' then 0 - Value(digits) else Value(digits);
      if 0 <= n < UINT32 then Some(n) else None
  }

  /** `atoi`, cut to a byte. */
  function ByteOf(s: string): byte {
    match Number(s)
    case None => 0
    case Some(n) => (n % 256) as byte
  }

  function Bytes(tokens: seq<string>): (r: seq<byte>)
    ensures |r| == |tokens| && forall i :: 0 <= i < |tokens| ==> r[i] == ByteOf(tokens[i])
  {
    seq(|tokens|, i requires 0 <= i < |tokens| => ByteOf(tokens[i]))
  }

  /** SetFromString: channels separated by commas, as many as there is room for. */
  function ParseBuffer(s: string): DmxBuffer {
    if s == "" then []
    else
      var tokens := Split(s, ',');
      Bytes(if |tokens| <= DMX_UNIVERSE_SIZE then tokens else tokens[..DMX_UNIVERSE_SIZE])
  }

  function ParseFrame(s: string): Option<(nat, DmxBuffer)> {
    var inputs := Split(s, ' ');
    if |inputs| != 2 then None
    else match StrictUnsigned(inputs[0])
      case None => None
      case Some(universe) => Some((universe, ParseBuffer(inputs[1])))
  }

  // ---------- what is read, in plain text ----------

  /** White space, a sign or none, leading zeros and a number: read if that is all, and an `unsigned int` can hold it. */
  lemma StrictInText(space: string, sign: string, zeros: nat, n: nat, rest: string)
    requires (forall i :: 0 <= i < |space| ==> White(space[i])) && sign in {"", "+", "-"}
    requires rest == "" || rest[0] !in "0123456789"
    ensures StrictUnsigned(space + sign + Zeros(zeros) + Dec(n) + rest) ==
            if rest != "" || n >= 0x1_0000_0000 || (sign == "-" && n > 0) then None else Some(n)
  {
    hide Value;
    hide Dec;
    hide SkipSpace;
    hide LeadingDigits;
    hide StrictUnsigned;
    var digits := Zeros(zeros) + Dec(n);
    var s := space + sign + Zeros(zeros) + Dec(n) + rest;
    assert s == space + (sign + (digits + rest));
    assert IsDigit((digits + rest)[0]);
    SkipSpaces(space, sign + (digits + rest));
    DigitsEnd(digits, rest);
    ZerosDoNotCount(zeros, n);
    StrictAfter(s, sign, digits + rest);
  }

  /** Without a digit after the white space and the sign nothing is read. */
  lemma StrictNoNumber(space: string, sign: string, rest: string)
    requires (forall i :: 0 <= i < |space| ==> White(space[i])) && sign in {"", "+", "-"}
    requires rest == "" || rest[0] !in "0123456789"
    requires sign == "" && rest != "" ==> !White(rest[0]) && rest[0] != '+' && rest[0] != '-'
    ensures StrictUnsigned(space + sign + rest) == None
  {
    hide SkipSpace;
    hide LeadingDigits;
    hide StrictUnsigned;
    assert space + sign + rest == space + (sign + rest);
    SkipSpaces(space, sign + rest);
    DigitsEnd("", rest);
    assert "" + rest == rest;
    StrictAfter(space + sign + rest, sign, rest);
  }

  lemma StrictAfter(s: string, sign: string, after: string)
    requires SkipSpace(s) == sign + after && sign in {"", "+", "-"}
    requires sign == "" && after != "" ==> after[0] != '+' && after[0] != '-'
    ensures var digits := LeadingDigits(after);
            StrictUnsigned(s) ==
            if digits == "" || |digits| < |after| then None
            else if sign == "-" then if Value(digits) == 0 then Some(0) else None
            else if Value(digits) < 0x1_0000_0000 then Some(Value(digits)) else None
  {
    hide SkipSpace;
    hide LeadingDigits;
    hide Value;
    var t := sign + after;
    if sign == "" {
      assert t == after;
    } else {
      assert t[0] == sign[0] && t[1..] == after;
    }
  }

  /** A channel is the low byte of the number that its piece of text starts with, and zero if it starts with none. */
  lemma ByteInText(space: string, sign: string, zeros: nat, n: nat, rest: string)
    requires (forall i :: 0 <= i < |space| ==> White(space[i])) && sign in {"", "+", "-"}
    requires rest == "" || rest[0] !in "0123456789"
    ensures ByteOf(space + sign + Zeros(zeros) + Dec(n) + rest) as int == (if sign == "-" then 0 - n else n) % 256
    ensures sign == "" && rest != "" && !White(rest[0]) && rest[0] != '+' && rest[0] != '-' ==> ByteOf(space + sign + rest) == 0
    ensures sign != "" || rest == "" ==> ByteOf(space + sign + rest) == 0
  {
    NumberInText(space, sign, zeros, n, rest);
    if sign != "" || rest == "" || (!White(rest[0]) && rest[0] != '+' && rest[0] != '-') {
      NoNumber(space, sign, rest);
    }
    hide Number;
    hide Dec;
  }

  /** Channels are separated by commas, and those past the last of a universe are dropped. */
  lemma BufferInText(pieces: seq<string>)
    requires pieces != [] && forall k :: 0 <= k < |pieces| ==> ',' !in pieces[k]
    ensures var text := Join(pieces, ',');
      && (text == "" ==> ParseBuffer(text) == [])
      && (text != "" ==> |ParseBuffer(text)| == (if |pieces| < 512 then |pieces| else 512)
                         && forall i :: 0 <= i < |ParseBuffer(text)| ==> ParseBuffer(text)[i] == ByteOf(pieces[i]))
  {
    SplitOfJoin(pieces, ',');
    hide Join;
    hide Split;
    hide ByteOf;
  }

  /** A frame is a universe, a space, and the channels; a line with no space, or more than one, is none. */
  lemma FrameInText(pieces: seq<string>)
    requires pieces != [] && forall k :: 0 <= k < |pieces| ==> ' ' !in pieces[k]
    ensures |pieces| != 2 ==> ParseFrame(Join(pieces, ' ')) == None
    ensures |pieces| == 2 ==> match StrictUnsigned(pieces[0])
      case None => ParseFrame(pieces[0] + " " + pieces[1]) == None
      case Some(universe) => ParseFrame(pieces[0] + " " + pieces[1]) == Some((universe, ParseBuffer(pieces[1])))
  {
    SplitOfJoin(pieces, ' ');
    assert |pieces| == 2 ==> Join(pieces, ' ') == pieces[0] + " " + pieces[1];
    hide Join;
    hide Split;
    hide ParseBuffer;
    hide StrictUnsigned;
  }

  lemma StrictRoundTrip(n: int)
    ensures StrictUnsigned(IntText(n)) == if 0 <= n < UINT32 then Some(n) else None
  {
    hide StrictUnsigned;
    hide Dec;
    if n < 0 {
      StrictInText("", "-", 0, 0 - n, "");
      assert "" + "-" + Zeros(0) + Dec(0 - n) + "" == "-" + Dec(0 - n);
    } else {
      StrictInText("", "", 0, n, "");
      assert "" + "" + Zeros(0) + Dec(n) + "" == Dec(n);
    }
  }

  /** The pieces of a text that ends with one more delimiter and a piece without. */
  lemma {:induction false} SplitLast(s: string, last: string, c: char)
    requires c !in last
    ensures Split(s + [c] + last, c) == Split(s, c) + [last]
    decreases |s|
  {
    hide Split;
    hide IndexOf;
    var i := IndexOf(s, c);
    if i == |s| {
      assert c !in s;
      SplitOnce(s, last, c);
      SplitNone(s, c);
    } else {
      var front, back := s[..i], s[i + 1..];
      assert s + [c] + last == s + ([c] + last) == front + [c] + (back + [c] + last);
      IndexInFront(s, [c] + last, c);
      SplitLast(back, last, c);
      SplitStep(s, c);
      var t := s + [c] + last;
      SplitStep(t, c);
      assert t[..i] == front && t[i + 1..] == back + [c] + last;
      assert [front] + (Split(back, c) + [last]) == [front] + Split(back, c) + [last];
    }
  }

  lemma SplitStep(s: string, c: char)
    requires IndexOf(s, c) < |s|
    ensures var i := IndexOf(s, c); Split(s, c) == [s[..i]] + Split(s[i + 1..], c)
  {
  }

  lemma IndexInFront(s: string, more: string, c: char)
    requires IndexOf(s, c) < |s|
    ensures IndexOf(s + more, c) == IndexOf(s, c)
  {
    var i := IndexOf(s, c);
    assert (s + more)[i] == c && forall j :: 0 <= j < i ==> (s + more)[j] == s[j];
  }

  lemma NoDelimiterInDigits(n: nat, c: char)
    requires !IsDigit(c)
    ensures c !in Dec(n)
  {
  }

  lemma SplitNone(s: string, c: char)
    requires c !in s
    ensures Split(s, c) == [s]
  {
    assert IndexOf(s, c) == |s|;
  }

  lemma {:induction false} BufferPieces(data: seq<byte>)
    requires data != []
    ensures |Split(BufferText(data), ',')| == |data|
    ensures forall i :: 0 <= i < |data| ==> Split(BufferText(data), ',')[i] == Dec(data[i] as nat)
  {
    var last := data[|data| - 1] as nat;
    NoDelimiterInDigits(last, ',');
    hide Split;
    hide Dec;
    if |data| == 1 {
      SplitNone(Dec(last), ',');
    } else {
      var front := data[..|data| - 1];
      BufferPieces(front);
      SplitLast(BufferText(front), Dec(last), ',');
      assert BufferText(data) == BufferText(front) + [','] + Dec(last);
      hide BufferText;
    }
  }

  lemma {:induction false} NoSpaceInBuffer(data: seq<byte>)
    ensures ' ' !in BufferText(data) && (data != [] ==> BufferText(data) != "")
  {
    if data != [] {
      NoSpaceInBuffer(data[..|data| - 1]);
      NoDelimiterInDigits(data[|data| - 1] as nat, ' ');
    }
  }

  lemma BufferRoundTrip(data: DmxBuffer)
    ensures ParseBuffer(BufferText(data)) == data
  {
    hide Split;
    hide Dec;
    hide ByteOf;
    NoSpaceInBuffer(data);
    if data != [] {
      BufferPieces(data);
      var tokens := Split(BufferText(data), ',');
      forall i | 0 <= i < |data|
        ensures Bytes(tokens)[i] == data[i]
      {
        ByteRoundTrip(data[i]);
      }
      hide BufferText;
      assert Bytes(tokens) == data;
    }
  }

  lemma ByteRoundTrip(b: byte)
    ensures ByteOf(Dec(b as nat)) == b
  {
    NumberOfDec(b as nat);
    hide Number;
    hide Dec;
  }

  /** A recorded frame is read back from its line, an empty one too. */
  lemma FrameRoundTrip(universe: nat, data: DmxBuffer)
    requires universe < UINT32
    ensures ParseFrame(FrameText(universe, data)) == Some((universe, data)) && FrameText(universe, data) != ""
    ensures StrictUnsigned(FrameText(universe, data)) == None
  {
    NoSpaceInBuffer(data);
    NoDelimiterInDigits(universe, ' ');
    SplitOnce(Dec(universe), BufferText(data), ' ');
    StrictRoundTrip(universe);
    BufferRoundTrip(data);
    NotANumber(universe, BufferText(data));
  }

  lemma NotANumber(universe: nat, rest: string)
    ensures StrictUnsigned(Dec(universe) + " " + rest) == None
  {
    var s := Dec(universe) + " " + rest;
    assert s[0] == Dec(universe)[0] && IsDigit(s[0]);
    assert s[|Dec(universe)|] == ' ';
  }

  // ---------- recording ----------

  /** The gap between two frames in whole milliseconds; a clock that runs backwards gives a negative one. */
  function Gap(a: Recorded, b: Recorded): int {
    (b.time - a.time) / 1000
  }

  /** The line with the gap after a frame, unless the time of the frame reads as not set. */
  function GapLine(a: Recorded, b: Recorded): seq<string> {
    if a.time != 0 then [IntText(Gap(a, b))] else []
  }

  /** The lines written for the frames, in order. */
  function ShowLines(frames: seq<Recorded>): seq<string> {
    if frames == [] then []
    else
      var line := [FrameText(frames[0].universe, frames[0].data)];
      if |frames| == 1 then line else line + GapLine(frames[0], frames[1]) + ShowLines(frames[1..])
  }

  lemma {:induction false} LinesOfOneMore(frames: seq<Recorded>, f: Recorded)
    ensures ShowLines(frames + [f]) ==
            ShowLines(frames) + (if frames == [] then [] else GapLine(frames[|frames| - 1], f)) + [FrameText(f.universe, f.data)]
    decreases |frames|
  {
    if frames != [] {
      assert (frames + [f])[1..] == frames[1..] + [f];
      LinesOfOneMore(frames[1..], f);
    }
  }

  class ShowSaver {
    var file: seq<string>
    var lastFrame: int
    ghost var frames: seq<Recorded>

    /** Open the file. */
    constructor ()
      ensures Valid() && frames == [] && file == ["OLA Show"]
    {
      file, lastFrame, frames := [HEADER], 0, [];
    }

    ghost predicate Valid()
      reads this
    {
      && file == [HEADER] + ShowLines(frames)
      && lastFrame == if frames == [] then 0 else frames[|frames| - 1].time
    }

    /** A frame arrives: first the whole milliseconds since the last one are written, if that one's time was set. */
    method NewFrame(time: int, universe: nat, data: DmxBuffer) returns (ghost ms: int)
      requires Valid()
      modifies this
      ensures Valid() && frames == old(frames) + [Recorded(time, universe, data)]
      ensures 1000 * ms <= time - old(lastFrame) < 1000 * ms + 1000
      ensures file == old(file) + (if old(lastFrame) == 0 then [] else if ms < 0 then ["-" + Dec(-ms)] else [Dec(ms)]) + [FrameText(universe, data)]
    {
      hide ShowLines;
      hide FrameText;
      ms := (time - lastFrame) / 1000;
      frames := frames + [Recorded(time, universe, data)];
      LinesOfOneMore(old(frames), Recorded(time, universe, data));
      if lastFrame != 0 {
        file := file + [IntText((time - lastFrame) / 1000)];
      }
      lastFrame := time;
      file := file + [FrameText(universe, data)];
    }
  }

  // ---------- what playing a file comes to ----------

  /** One pass over the lines: what is sent and waited for, and whether the end was reached without an invalid line. */
  function Pass(lines: seq<string>): (seq<Event>, bool)
    decreases |lines|
  {
    if lines == [] || lines[0] == "" then ([], true)
    else match ParseFrame(lines[0])
      case None => ([], false)
      case Some((universe, data)) =>
        if |lines| == 1 || lines[1] == "" then ([Sent(universe, data)], true)
        else match StrictUnsigned(lines[1])
          case None => ([Sent(universe, data)], false)
          case Some(ms) =>
            var (events, ok) := Pass(lines[2..]);
            ([Sent(universe, data), Waited(ms)] + events, ok)
  }

  /** The rest of a show of which `n` passes remain, this one included, from the given lines on. */
  function Rest(lines: seq<string>, all: seq<string>, n: nat, delay: nat): seq<Event>
    requires n > 0
    decreases n, 1
  {
    var (events, ok) := Pass(lines);
    if ok then events + NextPass(all, n, delay) else events
  }

  /** What follows a pass: the pause and the next pass, if it was not the last. */
  function NextPass(all: seq<string>, n: nat, delay: nat): seq<Event>
    requires n > 0
    decreases n, 0
  {
    if n == 1 then [] else [Waited(delay)] + Rest(all, all, n - 1, delay)
  }

  lemma OneMorePass(all: seq<string>, n: nat, delay: nat)
    requires n > 0
    ensures NextPass(all, n, delay) == if n == 1 then [] else [Waited(delay)] + Rest(all, all, n - 1, delay)
  {
  }

  /** At the end of the lines the next pass begins, if there is one. */
  lemma RestAtEnd(lines: seq<string>, all: seq<string>, n: nat, delay: nat)
    requires n > 0 && (lines == [] || lines[0] == "")
    ensures Rest(lines, all, n, delay) == NextPass(all, n, delay)
  {
  }

  /** A frame is sent, and then comes the line after it. */
  lemma RestAfterFrame(lines: seq<string>, all: seq<string>, n: nat, delay: nat)
    requires n > 0 && lines != [] && lines[0] != "" && ParseFrame(lines[0]).Some?
    ensures var (universe, data) := ParseFrame(lines[0]).value;
            Rest(lines, all, n, delay) ==
            if |lines| == 1 || lines[1] == "" then [Sent(universe, data)] + Rest(lines[1..], all, n, delay)
            else match StrictUnsigned(lines[1])
              case None => [Sent(universe, data)]
              case Some(ms) => [Sent(universe, data), Waited(ms)] + Rest(lines[2..], all, n, delay)
  {
    hide ParseFrame;
    hide StrictUnsigned;
    if |lines| == 1 || lines[1] == "" {
      RestAtEnd(lines[1..], all, n, delay);
    }
  }

  /** The same for a show that is played for ever: if the pass is without invalid lines, so is what is left of it. */
  lemma PassGoesOn(lines: seq<string>)
    requires lines != [] && lines[0] != "" && Pass(lines).1
    ensures ParseFrame(lines[0]).Some?
    ensures |lines| > 1 && lines[1] != "" ==> StrictUnsigned(lines[1]).Some? && Pass(lines[2..]).1
  {
  }

  lemma RestAtInvalid(lines: seq<string>, all: seq<string>, n: nat, delay: nat)
    requires n > 0 && lines != [] && lines[0] != "" && ParseFrame(lines[0]) == None
    ensures Rest(lines, all, n, delay) == []
  {
  }

  /** A show played `n` times over, with a pause between. */
  function Repeat(show: seq<Event>, n: nat, delay: nat): seq<Event>
    requires n > 0
  {
    if n == 1 then show else show + [Waited(delay)] + Repeat(show, n - 1, delay)
  }

  /** The clock was set when `a` arrived, and the gap to `b`, in milliseconds, fits in an `unsigned int`. */
  ghost predicate GoodGap(a: Recorded, b: Recorded) {
    a.time != 0 && 0 <= b.time - a.time < 0x1_0000_0000 * 1000
  }

  /** Every gap is good. */
  ghost predicate Recordable(frames: seq<Recorded>) {
    |frames| <= 1 || (GoodGap(frames[0], frames[1]) && Recordable(frames[1..]))
  }

  lemma {:induction false} RecordableIsEveryGap(frames: seq<Recorded>)
    ensures Recordable(frames) <==> forall i :: 0 < i < |frames| ==> GoodGap(frames[i - 1], frames[i])
  {
    if |frames| > 1 {
      var rest := frames[1..];
      RecordableIsEveryGap(rest);
      if GoodGap(frames[0], frames[1]) && Recordable(rest) {
        forall i | 0 < i < |frames|
          ensures GoodGap(frames[i - 1], frames[i])
        {
          assert i > 1 ==> GoodGap(rest[i - 2], rest[i - 1]);
        }
      } else if Recordable(rest) {
        assert frames[1 - 1] == frames[0];
      } else {
        var i :| 0 < i < |rest| && !GoodGap(rest[i - 1], rest[i]);
        assert frames[i + 1 - 1] == rest[i - 1] && frames[i + 1] == rest[i];
      }
    }
  }

  /** The frames before the first bad gap. */
  ghost function BeforeBadGap(frames: seq<Recorded>): (r: seq<Recorded>)
    ensures Recordable(r) && (r == [] <==> frames == []) && (r != [] ==> r[0] == frames[0])
  {
    if |frames| <= 1 then frames
    else if !GoodGap(frames[0], frames[1]) then [frames[0]]
    else
      var rest := BeforeBadGap(frames[1..]);
      assert ([frames[0]] + rest)[1..] == rest;
      [frames[0]] + rest
  }

  /** They are all frames exactly if the recording is recordable, and else those up to the one that a bad gap follows. */
  lemma {:induction false} BeforeBadGapIsPrefix(frames: seq<Recorded>)
    ensures var n := |BeforeBadGap(frames)|;
      && n <= |frames| && BeforeBadGap(frames) == frames[..n]
      && (n == |frames| <==> Recordable(frames))
      && (n < |frames| ==> n > 0 && !GoodGap(frames[n - 1], frames[n]))
  {
    if |frames| > 1 && GoodGap(frames[0], frames[1]) {
      BeforeBadGapIsPrefix(frames[1..]);
    }
  }

  /** The frames with the recorded gaps between them. */
  ghost function Played(frames: seq<Recorded>): (r: seq<Event>)
    requires Recordable(frames)
    ensures |r| == if frames == [] then 0 else 2 * |frames| - 1
  {
    if frames == [] then []
    else
      var first := Sent(frames[0].universe, frames[0].data);
      if |frames| == 1 then [first] else [first, Waited(Gap(frames[0], frames[1]))] + Played(frames[1..])
  }

  /** A recording plays as it was recorded, up to the first bad gap; it reaches its end exactly if there is none. */
  lemma {:induction false} PassOfRecording(frames: seq<Recorded>)
    requires forall i :: 0 <= i < |frames| ==> frames[i].universe < UINT32
    ensures Pass(ShowLines(frames)) == (Played(BeforeBadGap(frames)), Recordable(frames))
    decreases |frames|
  {
    hide ParseFrame;
    hide FrameText;
    hide StrictUnsigned;
    hide IntText;
    hide Pass;
    PassNothing();
    if frames != [] {
      var f := frames[0];
      FrameRoundTrip(f.universe, f.data);
      PassOne(FrameText(f.universe, f.data));
      if |frames| > 1 {
        var g, rest, lines := frames[1], frames[1..], ShowLines(frames);
        FrameRoundTrip(g.universe, g.data);
        StrictRoundTrip(Gap(f, g));
        PassOfRecording(rest);
        if f.time != 0 {
          assert lines == [FrameText(f.universe, f.data), IntText(Gap(f, g))] + ShowLines(rest);
          PassTwo(FrameText(f.universe, f.data), IntText(Gap(f, g)), ShowLines(rest));
        } else {
          assert ShowLines(rest)[0] == FrameText(g.universe, g.data);
          assert lines == [FrameText(f.universe, f.data), FrameText(g.universe, g.data)] + ShowLines(rest)[1..];
          PassTwo(FrameText(f.universe, f.data), FrameText(g.universe, g.data), ShowLines(rest)[1..]);
        }
        PlayedStep(frames);
      }
    }
  }

  /** `e` is the `j`-th event of a pass over these frames: a frame, or the wait for the whole milliseconds to the next. */
  ghost predicate IsEventOf(e: Event, frames: seq<Recorded>, j: nat)
    requires j + 1 < 2 * |frames|
  {
    var f := frames[j / 2];
    if j % 2 == 0 then e == Sent(f.universe, f.data)
    else e.Waited? && 1000 * e.ms <= frames[j / 2 + 1].time - f.time < 1000 * e.ms + 1000
  }

  lemma {:induction false} PlayedAt(frames: seq<Recorded>, j: nat)
    requires Recordable(frames) && j + 1 < 2 * |frames|
    ensures IsEventOf(Played(frames)[j], frames, j)
  {
    if j > 1 {
      PlayedAt(frames[1..], j - 2);
      assert j / 2 == (j - 2) / 2 + 1 && j % 2 == (j - 2) % 2;
    }
  }

  lemma {:induction false} WaitsOfPlayed(frames: seq<Recorded>)
    requires Recordable(frames)
    ensures Waits(Played(frames)) == if frames == [] then 0 else |frames| - 1
  {
    if |frames| > 1 {
      WaitsOfPlayed(frames[1..]);
      WaitsOfParts([Sent(frames[0].universe, frames[0].data), Waited(Gap(frames[0], frames[1]))], Played(frames[1..]));
      WaitFirst([], Gap(frames[0], frames[1]), []);
      WaitsOfParts([Sent(frames[0].universe, frames[0].data)], [Waited(Gap(frames[0], frames[1]))]);
    }
  }

  /** A show played `n` times over: its length, and its waits. */
  lemma {:induction false} SizeOfRepeat(show: seq<Event>, n: nat, delay: nat)
    requires n > 0
    ensures |Repeat(show, n, delay)| == n * (|show| + 1) - 1 && Waits(Repeat(show, n, delay)) == n * (Waits(show) + 1) - 1
    decreases n
  {
    hide Waits;
    if n > 1 {
      SizeOfRepeat(show, n - 1, delay);
      var rest := Repeat(show, n - 1, delay);
      WaitFirst(show, delay, rest);
      WaitsOfParts(show, [Waited(delay)] + rest);
      OneLess(n, |show| + 1);
      OneLess(n, Waits(show) + 1);
    }
  }

  lemma OneLess(n: int, k: int)
    ensures (n - 1) * k + k == n * k
  {
  }

  /** Its events: the show, a pause, the show, and so on. */
  lemma {:induction false} RepeatAt(show: seq<Event>, n: nat, delay: nat, e: nat)
    requires n > 0 && e < |Repeat(show, n, delay)|
    ensures var period := |show| + 1;
      Repeat(show, n, delay)[e] == if e % period == |show| then Waited(delay) else show[e % period]
    decreases n
  {
    var period := |show| + 1;
    if e < period {
      RemainderIs(period, 0, e);
    } else {
      RepeatAt(show, n - 1, delay, e - period);
      var q, r := (e - period) / period, (e - period) % period;
      OneLess(q + 1, period);
      assert e == period * (q + 1) + r;
      RemainderIs(period, q + 1, r);
    }
  }

  lemma RemainderIs(p: nat, q: nat, r: nat)
    requires r < p
    ensures (p * q + r) % p == r
  {
    var d := (p * q + r) / p;
    assert p * (d - q) == r - (p * q + r) % p;
    if d > q {
      OneLess(d - q, p);
      AtLeast(p, d - q);
    } else if d < q {
      AtLeast(p, q - d);
    }
  }

  lemma AtLeast(p: nat, k: nat)
    requires k > 0
    ensures p * k >= p
  {
    assert p * k == p + p * (k - 1);
  }

  lemma PlayedStep(frames: seq<Recorded>)
    requires |frames| > 1
    ensures Played(BeforeBadGap(frames)) ==
            if GoodGap(frames[0], frames[1])
            then [Sent(frames[0].universe, frames[0].data), Waited(Gap(frames[0], frames[1]))] + Played(BeforeBadGap(frames[1..]))
            else [Sent(frames[0].universe, frames[0].data)]
  {
    var rest := BeforeBadGap(frames[1..]);
    assert ([frames[0]] + rest)[1..] == rest;
  }

  lemma PassNothing()
    ensures Pass([]) == ([], true)
  {
  }

  lemma PassOne(line: string)
    requires line != "" && ParseFrame(line).Some?
    ensures var (universe, data) := ParseFrame(line).value; Pass([line]) == ([Sent(universe, data)], true)
  {
  }

  /** A frame and what follows it. */
  lemma PassTwo(line: string, next: string, rest: seq<string>)
    requires line != "" && next != "" && ParseFrame(line).Some?
    ensures var (universe, data) := ParseFrame(line).value;
            Pass([line, next] + rest) ==
            match StrictUnsigned(next)
            case None => ([Sent(universe, data)], false)
            case Some(ms) => ([Sent(universe, data), Waited(ms)] + Pass(rest).0, Pass(rest).1)
  {
    assert ([line, next] + rest)[2..] == rest;
  }

  /**
   * Played `n` times, a recording gives its frames in order `n` times with the recorded gaps, exactly if it is
   * recordable; else it gives the frames before the first bad gap, once.
   */
  lemma {:induction false} RecordThenPlay(frames: seq<Recorded>, n: nat, delay: nat)
    requires n > 0 && forall i :: 0 <= i < |frames| ==> frames[i].universe < UINT32
    ensures Rest(ShowLines(frames), ShowLines(frames), n, delay) ==
            if Recordable(frames) then Repeat(Played(frames), n, delay) else Played(BeforeBadGap(frames))
    decreases n
  {
    hide ShowLines;
    hide Rest;
    hide NextPass;
    hide Repeat;
    hide Played;
    hide Recordable;
    hide BeforeBadGap;
    var lines := ShowLines(frames);
    RestOfRecording(frames, lines, n, delay);
    OneMorePass(lines, n, delay);
    if Recordable(frames) {
      RepeatStep(Played(frames), n, delay);
      if n > 1 {
        RecordThenPlay(frames, n - 1, delay);
        Regroup(Played(frames), [Waited(delay)], Rest(lines, lines, n - 1, delay));
      }
    }
  }

  /** What is left of a show when a recording begins. */
  lemma RestOfRecording(frames: seq<Recorded>, all: seq<string>, n: nat, delay: nat)
    requires n > 0 && forall i :: 0 <= i < |frames| ==> frames[i].universe < UINT32
    ensures Rest(ShowLines(frames), all, n, delay) ==
            if Recordable(frames) then Played(frames) + NextPass(all, n, delay) else Played(BeforeBadGap(frames))
  {
    hide ShowLines;
    hide NextPass;
    hide Played;
    hide Pass;
    hide Rest;
    PassOfRecording(frames);
    BeforeBadGapIsPrefix(frames);
    assert frames[..|frames|] == frames;
    RestOfPass(ShowLines(frames), all, n, delay);
  }

  lemma RestOfPass(lines: seq<string>, all: seq<string>, n: nat, delay: nat)
    requires n > 0
    ensures Rest(lines, all, n, delay) == if Pass(lines).1 then Pass(lines).0 + NextPass(all, n, delay) else Pass(lines).0
  {
  }

  lemma RepeatStep(show: seq<Event>, n: nat, delay: nat)
    requires n > 0
    ensures Repeat(show, n, delay) == if n == 1 then show else show + [Waited(delay)] + Repeat(show, n - 1, delay)
  {
  }

  // ---------- whether a show can end ----------

  /**
   * The first frame is sent before the event loop starts. This says whether that leaves a timer pending for the loop, for
   * a show of these lines that is to be played `n` times, or for ever if `n` is zero: the file opens with a frame and a
   * gap, or it holds at most one frame and nothing invalid and there is another pass to come.
   */
  predicate Starts(lines: seq<string>, n: nat) {
    if lines == [] || lines[0] == "" then n != 1
    else
      && ParseFrame(lines[0]).Some?
      && if |lines| == 1 || lines[1] == "" then n != 1 else StrictUnsigned(lines[1]).Some?
  }

  /** For a recording that is a matter of its first two frames and the number of passes. */
  lemma StartsOfRecording(frames: seq<Recorded>, n: nat)
    requires forall i :: 0 <= i < |frames| ==> frames[i].universe < UINT32
    ensures Starts(ShowLines(frames), n) <==> if |frames| <= 1 then n != 1 else GoodGap(frames[0], frames[1])
  {
    hide ParseFrame;
    hide FrameText;
    hide StrictUnsigned;
    hide IntText;
    if frames != [] {
      var f, lines := frames[0], ShowLines(frames);
      FrameRoundTrip(f.universe, f.data);
      assert lines[0] == FrameText(f.universe, f.data);
      if |frames| == 1 {
        assert |lines| == 1;
      } else {
        var g := frames[1];
        FrameRoundTrip(g.universe, g.data);
        StrictRoundTrip(Gap(f, g));
        SecondLine(frames);
        hide ShowLines;
      }
    }
  }

  lemma SecondLine(frames: seq<Recorded>)
    requires |frames| > 1
    ensures var f, g, lines := frames[0], frames[1], ShowLines(frames);
      |lines| > 1 && lines[0] == FrameText(f.universe, f.data)
      && lines[1] == if f.time != 0 then IntText(Gap(f, g)) else FrameText(g.universe, g.data)
  {
    hide FrameText;
    hide IntText;
    assert ShowLines(frames[1..])[0] == FrameText(frames[1].universe, frames[1].data);
  }

  /** The smallest instance: a recording of one frame played once, which is the default, leaves no timer. */
  lemma OneFrameOnceNeverStarts(f: Recorded)
    requires f.universe < UINT32
    ensures Recordable([f]) && !Starts(ShowLines([f]), 1) && Starts(ShowLines([f]), 2)
  {
    StartsOfRecording([f], 1);
    StartsOfRecording([f], 2);
  }

  /** The timers that a course of events takes. */
  function Waits(events: seq<Event>): nat {
    if events == [] then 0 else Waits(events[..|events| - 1]) + if events[|events| - 1].Waited? then 1 else 0
  }

  lemma {:induction false} WaitsOfParts(a: seq<Event>, b: seq<Event>)
    ensures Waits(a + b) == Waits(a) + Waits(b)
    decreases |b|
  {
    if b == [] {
      assert a + b == a;
    } else {
      assert (a + b)[..|a + b| - 1] == a + b[..|b| - 1];
      WaitsOfParts(a, b[..|b| - 1]);
    }
  }

  lemma SendingIsNoWait(events: seq<Event>, universe: nat, data: DmxBuffer)
    ensures Waits(events + [Sent(universe, data)]) == Waits(events)
  {
    assert (events + [Sent(universe, data)])[..|events|] == events;
  }

  /** A wait at the head of what is to come. */
  lemma WaitFirst(before: seq<Event>, ms: nat, rest: seq<Event>)
    ensures before + ([Waited(ms)] + rest) == before + [Waited(ms)] + rest
    ensures Waits([Waited(ms)] + rest) == 1 + Waits(rest)
  {
    WaitsOfParts([Waited(ms)], rest);
  }

  lemma OneWait(ms: nat)
    ensures Waits([Waited(ms)]) == 1
  {
    assert [Waited(ms)][..0] == [];
  }

  lemma WaitsOfSame(a: seq<Event>, b: seq<Event>, c: seq<Event>, d: seq<Event>)
    requires a + b == c + d && Waits(a) == Waits(c)
    ensures Waits(b) == Waits(d)
  {
    WaitsOfParts(a, b);
    WaitsOfParts(c, d);
  }

  // ---------- playing ----------

  class ShowLoader {
    const file: seq<string>
    var position: nat

    constructor (file: seq<string>)
      ensures this.file == file && position == 0
    {
      this.file, position := file, 0;
    }

    ghost predicate Valid()
      reads this
    {
      position <= |file|
    }

    /** The lines still to be read. */
    function Left(): seq<string>
      requires Valid()
      reads this
    {
      file[position..]
    }

    /** The next line, or an empty one at the end of the file. */
    method ReadLine() returns (line: string)
      requires Valid()
      modifies this
      ensures Valid() && line == (if old(Left()) == [] then "" else old(Left())[0])
      ensures Left() == if old(Left()) == [] then [] else old(Left())[1..]
    {
      if position == |file| {
        return "";
      }
      line := file[position];
      position := position + 1;
    }

    method Load() returns (ok: bool)
      requires Valid() && position == 0
      modifies this
      ensures Valid() && ok == (|file| > 0 && file[0] == HEADER) && (ok ==> Left() == file[1..])
    {
      var line := ReadLine();
      return line == HEADER;
    }

    method Reset()
      requires Valid()
      modifies this
      ensures Valid() && Left() == if file == [] then [] else file[1..]
    {
      position := 0;
      var _ := ReadLine();
    }

    method NextTimeout() returns (state: State, timeout: nat)
      requires Valid()
      modifies this
      ensures Valid() && |Left()| <= old(|Left()|)
      ensures var left := old(Left());
        if left == [] || left[0] == "" then state == EndOfFile
        else Left() == left[1..] && match StrictUnsigned(left[0])
          case None => state == InvalidLine
          case Some(ms) => state == Ok && timeout == ms
    {
      timeout := 0;
      var line := ReadLine();
      if line == "" {
        return EndOfFile, timeout;
      }
      match StrictUnsigned(line) {
        case None => return InvalidLine, timeout;
        case Some(ms) => return Ok, ms;
      }
    }

    method NextFrame() returns (state: State, universe: nat, data: DmxBuffer)
      requires Valid()
      modifies this
      ensures Valid() && |Left()| <= old(|Left()|)
      ensures var left := old(Left());
        if left == [] || left[0] == "" then state == EndOfFile
        else Left() == left[1..] && match ParseFrame(left[0])
          case None => state == InvalidLine
          case Some(frame) => state == Ok && (universe, data) == frame
    {
      universe, data := 0, [];
      var line := ReadLine();
      if line == "" {
        return EndOfFile, universe, data;
      }
      var inputs := Split(line, ' ');
      if |inputs| != 2 {
        return InvalidLine, universe, data;
      }
      var number := StrictUnsigned(inputs[0]);
      if number == None {
        return InvalidLine, universe, data;
      }
      return Ok, number.value, ParseBuffer(inputs[1]);
    }
  }

  class ShowPlayer {
    const loader: ShowLoader
    var infinite: bool
    var remaining: nat
    var delay: nat
    /** The event loop: the timer that will send the next frame, whether it is looping, and whether it is to end. */
    var timer: Option<nat>
    var looping: bool
    var terminate: bool
    /** What has been sent and waited for. */
    var log: seq<Event>

    constructor (loader: ShowLoader)
      ensures this.loader == loader && timer == None && log == [] && !looping && !terminate
    {
      this.loader := loader;
      infinite, remaining, delay, timer, looping, terminate, log := false, 0, 0, None, false, false, [];
    }

    /** The lines of the show, without the header. */
    function Show(): seq<string> {
      if loader.file == [] then [] else loader.file[1..]
    }

    ghost predicate Valid()
      reads this, loader
    {
      loader.Valid() && remaining < UINT32 && (timer.Some? && !infinite ==> remaining > 0)
    }

    /** What is still to come of a show that is not played for ever, as far as a timer is pending. */
    ghost function Future(): seq<Event>
      requires Valid() && !infinite
      reads this, loader
    {
      if timer.Some? then [Waited(timer.value)] + Rest(loader.Left(), Show(), remaining, delay) else []
    }

    /** There is never a second timer. */
    method RegisterSingleTimeout(ms: nat)
      requires timer == None
      modifies this`timer
      ensures timer == Some(ms)
    {
      timer := Some(ms);
    }

    /** End the loop; outside the loop this does nothing. */
    method Terminate()
      modifies this`terminate
      ensures terminate == (old(terminate) || looping)
    {
      if looping {
        terminate := true;
      }
    }

    /** A step either leaves a timer or asks the loop to end, and never both. */
    twostate predicate EndsOrWaits()
      reads this
    {
      looping == old(looping) && terminate == (old(terminate) || (looping && timer == None))
    }

    method HandleEndOfFile()
      requires loader.Valid() && timer == None && remaining < UINT32 && (!infinite ==> remaining > 0)
      modifies this`remaining, this`timer, this`terminate, loader
      ensures Valid() && EndsOrWaits()
      ensures timer.Some? <==> infinite || old(remaining) > 1
      ensures timer.Some? ==> loader.Left() == Show()
      ensures !infinite ==> remaining == old(remaining) - 1
      ensures !infinite ==> Future() == NextPass(Show(), old(remaining), delay)
    {
      if !infinite {
        OneMorePass(Show(), remaining, delay);
      }
      hide Rest;
      hide NextPass;
      hide Pass;
      remaining := if remaining == 0 then UINT32 - 1 else remaining - 1;
      if infinite || remaining > 0 {
        loader.Reset();
        assert loader.Left() == Show();
        RegisterSingleTimeout(delay);
      } else {
        Terminate();
      }
    }

    /**
     * Send the frame at the loader's position and arrange for the next. What is logged and what is still to come are
     * together what the rest of the show comes to.
     */
    method SendNextFrame()
      requires loader.Valid() && timer == None && remaining < UINT32 && (!infinite ==> remaining > 0)
      modifies this`remaining, this`timer, this`terminate, this`log, loader
      ensures Valid() && EndsOrWaits()
      ensures timer.Some? <==> Starts(old(loader.Left()), if infinite then 0 else old(remaining))
      ensures Waits(log) == Waits(old(log))
      ensures !infinite ==> log + Future() == old(log) + Rest(old(loader.Left()), Show(), old(remaining), delay)
      ensures infinite && Pass(old(loader.Left())).1 && Pass(Show()).1 ==> timer.Some? && Pass(loader.Left()).1
    {
      hide Rest;
      hide NextPass;
      hide Pass;
      hide ParseFrame;
      hide StrictUnsigned;
      ghost var left, n := loader.Left(), remaining;
      var state, universe, data := loader.NextFrame();
      if state == EndOfFile {
        if !infinite {
          RestAtEnd(left, Show(), n, delay);
        }
        HandleEndOfFile();
      } else if state == InvalidLine {
        if !infinite {
          RestAtInvalid(left, Show(), n, delay);
        } else if Pass(left).1 {
          PassGoesOn(left);
        }
        Terminate();
      } else {
        ShowFrame(universe, data, left);
      }
    }

    /** Arrange for what follows the frame that has just been read, and send it. */
    method ShowFrame(universe: nat, data: DmxBuffer, ghost left: seq<string>)
      requires loader.Valid() && timer == None && remaining < UINT32 && (!infinite ==> remaining > 0)
      requires left != [] && left[0] != "" && ParseFrame(left[0]) == Some((universe, data)) && loader.Left() == left[1..]
      modifies this`remaining, this`timer, this`terminate, this`log, loader
      ensures Valid() && EndsOrWaits()
      ensures timer.Some? <==> Starts(left, if infinite then 0 else old(remaining))
      ensures Waits(log) == Waits(old(log))
      ensures !infinite ==> log + Future() == old(log) + Rest(left, Show(), old(remaining), delay)
      ensures infinite && Pass(left).1 && Pass(Show()).1 ==> timer.Some? && Pass(loader.Left()).1
    {
      hide Rest;
      hide NextPass;
      hide Pass;
      hide ParseFrame;
      hide StrictUnsigned;
      hide Waits;
      ghost var n := remaining;
      if infinite {
        if Pass(left).1 {
          PassGoesOn(left);
        }
      } else {
        RestAfterFrame(left, Show(), n, delay);
      }
      var next, timeout := loader.NextTimeout();
      if next == Ok {
        RegisterSingleTimeout(timeout);
      }
      SendingIsNoWait(log, universe, data);
      log := log + [Sent(universe, data)];
      if next == EndOfFile {
        if !infinite {
          RestAtEnd(left[1..], Show(), n, delay);
        }
        HandleEndOfFile();
        assert !infinite ==> Rest(left, Show(), n, delay) == [Sent(universe, data)] + Future();
      } else if next == InvalidLine {
        Terminate();
        assert !infinite ==> Rest(left, Show(), n, delay) == [Sent(universe, data)] + Future();
      } else {
        assert left[1..][1..] == left[2..];
        assert !infinite ==> Rest(left, Show(), n, delay) == [Sent(universe, data)] + Future();
      }
      if !infinite {
        Regroup(old(log), [Sent(universe, data)], Future());
      }
    }

    /** The pending timer fires. */
    method TimerFires()
      requires Valid() && timer.Some?
      modifies this`remaining, this`timer, this`terminate, this`log, loader
      ensures Valid() && EndsOrWaits()
      ensures !infinite ==> log + Future() == old(log + Future())
      ensures !infinite ==> Waits(Future()) == Waits(old(Future())) - 1
      ensures Waits(log) == Waits(old(log)) + 1
      ensures infinite && Pass(old(loader.Left())).1 && Pass(Show()).1 ==> timer.Some? && Pass(loader.Left()).1
    {
      hide Rest;
      hide Pass;
      hide Starts;
      hide Waits;
      ghost var rest := if infinite then [] else Rest(loader.Left(), Show(), remaining, delay);
      WaitFirst(log, timer.value, rest);
      OneWait(timer.value);
      WaitsOfParts(log, [Waited(timer.value)]);
      log := log + [Waited(timer.value)];
      ghost var sofar := log;
      timer := None;
      SendNextFrame();
      if !infinite {
        WaitsOfSame(log, Future(), sofar, rest);
      }
    }

    /** The event loop, for `turns` turns: a turn in which the pending timer fires, or an idle one if there is none. */
    method RunLoop(turns: nat) returns (ended: bool)
      requires Valid() && !looping && !infinite
      modifies this`remaining, this`timer, this`looping, this`terminate, this`log, loader
      ensures Valid() && log + Future() == old(log + Future())
      ensures ended <==> old(timer).Some? && Waits(old(Future())) <= turns
      ensures !looping && (ended ==> timer == None)
      ensures old(timer) == None ==> timer == None && log == old(log)
    {
      hide Rest;
      hide Pass;
      looping, terminate := true, false;
      ghost var waits := Waits(Future());
      WaitsIfPending();
      for i := 0 to turns
        invariant Valid() && looping && log + Future() == old(log + Future())
        invariant terminate <==> old(timer).Some? && timer == None
        invariant old(timer) == None ==> timer == None && log == old(log)
        invariant old(timer).Some? ==> Waits(Future()) == waits - i
        invariant timer.Some? <==> Waits(Future()) > 0
      {
        if terminate {
          looping := false;
          return true;
        }
        if timer.Some? {
          TimerFires();
        }
        WaitsIfPending();
      }
      ended := terminate;
      looping := false;
    }

    lemma WaitsIfPending()
      requires Valid() && !infinite
      ensures timer.Some? <==> Waits(Future()) > 0
    {
      hide Rest;
      if timer.Some? {
        WaitsOfParts([Waited(timer.value)], Rest(loader.Left(), Show(), remaining, delay));
      }
    }

    /**
     * Play the show `iterations` times, followed for `turns` turns of the event loop. The loop ends exactly if the first
     * frame, sent before it starts, has left a timer, and then after as many turns as the show has waits; all that the
     * file says has been done by then. If no timer is left the loop runs for ever, with nothing more to do.
     */
    method Playback(iterations: nat, pause: nat, turns: nat) returns (ended: bool)
      requires loader.Valid() && loader.Left() == Show() && 0 < iterations < UINT32 && timer == None && !looping
      modifies this, loader
      ensures ended <==> Starts(Show(), iterations) && Waits(Rest(Show(), Show(), iterations, pause)) <= turns
      ensures ended || !Starts(Show(), iterations) ==> log == old(log) + Rest(Show(), Show(), iterations, pause)
      ensures log <= old(log) + Rest(Show(), Show(), iterations, pause)
    {
      hide Rest;
      hide Starts;
      ghost var before, show := log, Rest(Show(), Show(), iterations, pause);
      infinite, remaining, delay := false, iterations, pause;
      SendNextFrame();
      WaitsOfParts(log, Future());
      WaitsOfParts(before, show);
      ended := RunLoop(turns);
    }

    /**
     * Playing with no number of iterations. A show without invalid lines always has a timer pending, whatever number of
     * them has fired; one that opens with an invalid frame or gap never has, and cannot be stopped either.
     */
    method PlayForever(pause: nat, timers: nat)
      requires loader.Valid() && loader.Left() == Show() && timer == None && !looping
      modifies this, loader
      ensures Pass(Show()).1 ==> timer.Some? && !terminate && Waits(log) == Waits(old(log)) + timers
      ensures !Starts(Show(), 0) ==> timer == None && !terminate
    {
      hide Pass;
      hide Starts;
      infinite, remaining, delay := true, 0, pause;
      SendNextFrame();
      looping, terminate := true, false;
      for i := 0 to timers
        invariant Valid() && infinite && looping
        invariant Pass(Show()).1 ==> timer.Some? && Pass(loader.Left()).1 && !terminate && Waits(log) == Waits(old(log)) + i
        invariant !Starts(Show(), 0) ==> timer == None && !terminate
      {
        if timer == None {
          return;
        }
        TimerFires();
      }
    }
  }

  /** Record frames, and take the file. */
  method Record(frames: seq<Recorded>) returns (file: seq<string>)
    ensures file == ["OLA Show"] + ShowLines(frames)
  {
    hide ShowLines;
    var saver := new ShowSaver();
    for i := 0 to |frames|
      invariant saver.Valid() && saver.frames == frames[..i]
    {
      ghost var _ := saver.NewFrame(frames[i].time, frames[i].universe, frames[i].data);
    }
    assert frames[..|frames|] == frames;
    return saver.file;
  }

  /**
   * Record frames, and play the recording `n` times. Up to the first bad gap, if there is one, `m` frames arrived. What is
   * sent, once the event loop has ended or if it never will, is these in order with the recorded gaps between them, in whole
   * milliseconds; and if there was no bad gap that `n` times over, with the pause between the passes. The loop ends, after
   * as many turns as there are waits, exactly if the first gap is good or, with no gap, there is more than one pass.
   */
  method RecordAndPlay(frames: seq<Recorded>, n: nat, pause: nat, turns: nat) returns (log: seq<Event>, ended: bool)
    requires 0 < n < UINT32 && forall i :: 0 <= i < |frames| ==> frames[i].universe < UINT32
    ensures var m := |BeforeBadGap(frames)|;
            && m <= |frames| && (frames != [] ==> m > 0) && (forall i :: 0 < i < m ==> GoodGap(frames[i - 1], frames[i]))
            && (m < |frames| ==> !GoodGap(frames[m - 1], frames[m]))
    ensures var m := |BeforeBadGap(frames)|;
            var passes := if m == |frames| then n else 1;
            var starts := if |frames| <= 1 then n > 1 else GoodGap(frames[0], frames[1]);
            var length, waits := if m == 0 then n - 1 else passes * (2 * m) - 1, if m == 0 then n - 1 else passes * m - 1;
            && (ended <==> starts && waits <= turns)
            && |log| <= length && (ended || !starts ==> |log| == length)
    ensures var m := |BeforeBadGap(frames)|;
            forall e :: 0 <= e < |log| ==>
              if m == 0 || e % (2 * m) == 2 * m - 1 then log[e] == Waited(pause) else IsEventOf(log[e], frames, e % (2 * m))
  {
    hide Starts;
    hide Rest;
    hide ShowLines;
    hide Played;
    hide Repeat;
    hide BeforeBadGap;
    hide Recordable;
    hide GoodGap;
    hide Waits;
    hide IsEventOf;
    var file := Record(frames);
    var loader := new ShowLoader(file);
    var ok := loader.Load();
    var player := new ShowPlayer(loader);
    assert player.Show() == ShowLines(frames);
    RecordThenPlay(frames, n, pause);
    StartsOfRecording(frames, n);
    ended := player.Playback(n, pause, turns);
    log := player.log;
    WhatIsPlayed(frames, n, pause);
  }

  /** What a recording plays, event by event. */
  lemma WhatIsPlayed(frames: seq<Recorded>, n: nat, pause: nat)
    requires n > 0
    ensures var m, show := |BeforeBadGap(frames)|, if Recordable(frames) then Repeat(Played(frames), n, pause) else Played(BeforeBadGap(frames));
            var passes := if m == |frames| then n else 1;
            && m <= |frames| && (frames != [] ==> m > 0) && (forall i :: 0 < i < m ==> GoodGap(frames[i - 1], frames[i]))
            && (m < |frames| ==> !GoodGap(frames[m - 1], frames[m]))
            && |show| == (if m == 0 then n - 1 else passes * (2 * m) - 1)
            && Waits(show) == (if m == 0 then n - 1 else passes * m - 1)
            && forall e :: 0 <= e < |show| ==>
                 if m == 0 || e % (2 * m) == 2 * m - 1 then show[e] == Waited(pause) else IsEventOf(show[e], frames, e % (2 * m))
  {
    hide IsEventOf;
    hide Waits;
    hide GoodGap;
    hide BeforeBadGap;
    hide Recordable;
    hide Played;
    var good := BeforeBadGap(frames);
    BeforeBadGapIsPrefix(frames);
    GoodGapsBefore(frames);
    WaitsOfPlayed(good);
    var m, played := |good|, Played(good);
    var passes := if m == |frames| then n else 1;
    assert Repeat(played, 1, pause) == played;
    assert m == |frames| ==> good == frames;
    hide Repeat;
    SizeOfRepeat(played, passes, pause);
    assert m > 0 ==> |played| + 1 == 2 * m && Waits(played) + 1 == m;
    forall e: nat | e < |Repeat(played, passes, pause)|
      ensures var show := Repeat(played, passes, pause);
              if m == 0 || e % (2 * m) == 2 * m - 1 then show[e] == Waited(pause) else IsEventOf(show[e], frames, e % (2 * m))
    {
      EventOfRepeat(frames, good, passes, pause, e);
    }
  }

  lemma GoodGapsBefore(frames: seq<Recorded>)
    ensures forall i :: 0 < i < |BeforeBadGap(frames)| <= |frames| ==> GoodGap(frames[i - 1], frames[i])
  {
    var good := BeforeBadGap(frames);
    BeforeBadGapIsPrefix(frames);
    RecordableIsEveryGap(good);
    hide GoodGap;
    forall i | 0 < i < |good| <= |frames|
      ensures GoodGap(frames[i - 1], frames[i])
    {
      assert GoodGap(good[i - 1], good[i]);
    }
  }

  lemma EventOfRepeat(frames: seq<Recorded>, good: seq<Recorded>, passes: nat, pause: nat, e: nat)
    requires Recordable(good) && good <= frames && passes > 0 && e < |Repeat(Played(good), passes, pause)|
    ensures var event, m := Repeat(Played(good), passes, pause)[e], |good|;
            if m == 0 || e % (2 * m) == 2 * m - 1 then event == Waited(pause) else IsEventOf(event, frames, e % (2 * m))
  {
    hide IsEventOf;
    hide Recordable;
    hide Repeat;
    hide Played;
    RepeatAt(Played(good), passes, pause, e);
    if good != [] {
      assert |Played(good)| + 1 == 2 * |good|;
      var j := e % (2 * |good|);
      if j != 2 * |good| - 1 {
        PlayedAt(good, j);
        SameEvent(Played(good)[j], frames, |good|, j);
      }
    } else {
      assert |Played(good)| == 0 && e % 1 == 0;
    }
  }

  lemma SameEvent(e: Event, frames: seq<Recorded>, m: nat, j: nat)
    requires m <= |frames| && j + 1 < 2 * m && IsEventOf(e, frames[..m], j)
    ensures IsEventOf(e, frames, j)
  {
  }
}
