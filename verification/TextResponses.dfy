/** The reader of the responses of a line-oriented management port. */
module TextResponses {
  import opened Sequences
  import FileObject

  datatype Response = Response(raw: string, text: string, status: string, textStatus: string) | IndexError

  datatype EndMark = NoMark | Mark(line: string)

  datatype Reader = Reader(raw: string, text: string, status: string, textStatus: string,
                           mark: EndMark, isEnd: bool, buffering: bool) {
    function Result(): Response {
      Response(raw, text, status, textStatus)
    }

    function WithRaw(more: string): Reader {
      this.(raw := raw + more)
    }

    function WithText(more: string): Reader {
      this.(text := text + more)
    }
  }

  datatype Outcome = Goes(r: Reader) | Fails

  const FRESH: Reader := Reader("", "", "", "", NoMark, false, true)
  const DATA_END: string := "0000 DATA END WITH"

  // ----- What one line means -----

  predicate Digit(c: char) {
    '0' <= c <= '9'
  }

  predicate Contains(s: string, part: string) {
    part <= s || (s != "" && Contains(s[1..], part))
  }

  /** The text between the first two quotes, or behind the first when there is but one. */
  function Quoted(line: string): EndMark {
    var i := Find(line, '\'');
    if i == -1 then NoMark
    else
      var rest := line[i + 1..];
      var j := Find(rest, '\'');
      Mark(if j == -1 then rest else rest[..j])
  }

  datatype Test = Yes | No | OutOfRange

  /** Whether a line begins with a status: four digits, the first of them 1 to 8. The octets
      are tested one by one, and a line that ends too early is an error. */
  function StatusTest(line: string): Test {
    if line == "" then OutOfRange
    else if !(line[0] > '0' && (line[0] < '9' || line == "9")) then No
    else if |line| < 2 then OutOfRange
    else if !Digit(line[1]) then No
    else if |line| < 3 then OutOfRange
    else if !Digit(line[2]) then No
    else if |line| < 4 then OutOfRange
    else if Digit(line[3]) then Yes
    else No
  }

  predicate IsDigit(c: char) {
    c in "0123456789"
  }

  /** It has one exactly with four such characters; and it is too short to tell exactly if it is empty,
      or so far looks like one, or is a single 9. */
  lemma StatusTestIs(line: string)
    ensures StatusTest(line) == Yes <==>
      4 <= |line| && line[0] in "12345678" && IsDigit(line[1]) && IsDigit(line[2]) && IsDigit(line[3])
    ensures StatusTest(line) == OutOfRange <==>
      || line == "" || line == "9"
      || (|line| < 4 && line[0] in "12345678" && forall i :: 1 <= i < |line| ==> IsDigit(line[i]))
  {
  }

  predicate LiesAt(s: string, part: string, i: int) {
    0 <= i && i + |part| <= |s| && s[i..i + |part|] == part
  }

  lemma LiesInRest(s: string, part: string, i: nat)
    requires s != ""
    ensures LiesAt(s[1..], part, i) <==> LiesAt(s, part, i + 1)
  {
    if i + 1 + |part| <= |s| {
      assert s[1..][i..i + |part|] == s[i + 1..i + 1 + |part|];
    }
  }

  lemma LiesFirst(s: string, part: string)
    ensures LiesAt(s, part, 0) <==> part <= s
  {
  }

  /** One text is somewhere in the other. */
  lemma {:induction false} ContainsIff(s: string, part: string)
    ensures Contains(s, part) <==> exists i :: LiesAt(s, part, i)
    decreases |s|
  {
    LiesFirst(s, part);
    hide LiesAt;
    if !(part <= s) && s != "" {
      ContainsIff(s[1..], part);
      forall i: nat
        ensures LiesAt(s[1..], part, i) <==> LiesAt(s, part, i + 1)
      {
        LiesInRest(s, part, i);
      }
      LiesNatural(s, part);
      LiesNatural(s[1..], part);
      if i :| LiesAt(s, part, i) {
        assert i != 0 && LiesAt(s[1..], part, i - 1);
      }
    } else if s == "" {
      LiesNatural(s, part);
      LiesInNothing(part);
    }
  }

  lemma LiesNatural(s: string, part: string)
    ensures forall i :: LiesAt(s, part, i) ==> 0 <= i
  {
  }

  lemma LiesInNothing(part: string)
    ensures forall i :: LiesAt("", part, i) ==> part <= ""
  {
  }

  /** A line with its newline. */
  function Ended(line: string): string {
    line + "\n"
  }

  function OnLine(r0: Reader, line: string): Outcome {
    var r := r0.WithRaw(Ended(line));
    if |line| == 0 && !r.isEnd then Goes(r.WithText("\n"))
    else if |line| == 0 then Fails
    else if line[0] == '0' && Contains(line, DATA_END) then
      match Quoted(line)
      case NoMark => Fails
      case Mark(m) => Goes(r.(mark := Mark(m)))
    else
      match StatusTest(line)
      case OutOfRange => Fails
      case Yes => Goes(r.(status := line[..4], textStatus := line[4..], buffering := false))
      case No =>
        if r.mark == Mark(line) then Goes(r.(isEnd := true))
        else if !r.isEnd then Goes(r.WithText(Ended(line)))
        else Goes(r)
  }

  /** The response in a whole stream, line by line. */
  function ReadFrom(r: Reader, stream: string): Response
    decreases |stream|
  {
    var nl := Find(stream, '\n');
    if nl == -1 then r.Result()
    else
      match OnLine(r, stream[..nl])
      case Fails => IndexError
      case Goes(r') => if r'.buffering then ReadFrom(r', stream[nl + 1..]) else r'.Result()
  }

  // ----- The reader -----

  lemma FirstLine(buffer: string, stream: string)
    requires '\n' in buffer
    ensures var nl := Find(buffer, '\n');
      && Find(buffer + stream, '\n') == nl
      && (buffer + stream)[..nl] == buffer[..nl]
      && (buffer + stream)[nl + 1..] == buffer[nl + 1..] + stream
  {
    var nl, m := Find(buffer, '\n'), Find(buffer + stream, '\n');
    assert (buffer + stream)[nl] == '\n';
    assert m <= nl;
    assert (buffer + stream)[m] == buffer[m];
  }

  /** What was received but not yet read leads to the response of the whole stream. */
  predicate Pending(r: Reader, buffer: string, stream: string, all: string) {
    if r.buffering then ReadFrom(r, buffer + stream) == ReadFrom(FRESH, all) else r.Result() == ReadFrom(FRESH, all)
  }

  lemma LineRead(r: Reader, buffer: string, stream: string, all: string)
    requires Pending(r, buffer, stream, all) && r.buffering && '\n' in buffer
    ensures var nl := Find(buffer, '\n');
      match OnLine(r, buffer[..nl])
      case Fails => ReadFrom(FRESH, all) == IndexError
      case Goes(r') => Pending(r', buffer[nl + 1..], stream, all)
  {
    FirstLine(buffer, stream);
    hide OnLine;
  }

  lemma MoreRead(r: Reader, buffer: string, more: string, stream: string, all: string)
    requires Pending(r, buffer, more + stream, all)
    ensures Pending(r, buffer + more, stream, all)
  {
    assert buffer + (more + stream) == (buffer + more) + stream;
  }

  lemma EndRead(r: Reader, buffer: string, all: string)
    requires Pending(r, buffer, "", all) && r.buffering && '\n' !in buffer
    ensures Pending(r.(buffering := false), buffer, "", all)
  {
    assert buffer + "" == buffer;
  }

  lemma AllRead(r: Reader, buffer: string, stream: string, all: string)
    requires Pending(r, buffer, stream, all) && !r.buffering
    ensures r.Result() == ReadFrom(FRESH, all)
  {
  }

  /** However the stream is cut into pieces, the response is the same. */
  method GetResponse(sock: FileObject.Socket, bufferSize: nat) returns (response: Response)
    requires 0 < bufferSize
    modifies sock`stream
    ensures response == ReadFrom(FRESH, old(sock.stream))
  {
    ghost var all := sock.stream;
    var r := FRESH;
    var buffer := sock.Recv(bufferSize);
    assert Pending(r, buffer, sock.stream, all);
    hide *;
    while r.buffering
      invariant Pending(r, buffer, sock.stream, all)
      decreases |buffer| + 2 * |sock.stream|, r.buffering
    {
      var nl := Find(buffer, '\n');
      if nl != -1 {
        LineRead(r, buffer, sock.stream, all);
        var outcome := OnLine(r, buffer[..nl]);
        if outcome.Fails? {
          return IndexError;
        }
        buffer := buffer[nl + 1..];
        r := outcome.r;
      } else {
        var more := sock.Recv(bufferSize);
        if more == "" {
          EndRead(r, buffer, all);
          r := r.(buffering := false);
        } else {
          MoreRead(r, buffer, more, sock.stream, all);
          buffer := buffer + more;
        }
      }
    }
    AllRead(r, buffer, sock.stream, all);
    return r.Result();
  }

  // ----- What the reader is for -----

  function Unlines(lines: seq<string>): string {
    if lines == [] then "" else Ended(lines[0]) + Unlines(lines[1..])
  }

  /** A line of text: neither an announcement of the end mark nor a status. */
  predicate Ordinary(line: string) {
    && '\n' !in line
    && (line != "" ==> !(line[0] == '0' && Contains(line, DATA_END)) && StatusTest(line) == No)
  }

  predicate AllOrdinary(lines: seq<string>) {
    forall i :: 0 <= i < |lines| ==> Ordinary(lines[i])
  }

  predicate IsStatus(status: string) {
    |status| == 4 && '1' <= status[0] <= '8' && Digit(status[1]) && Digit(status[2]) && Digit(status[3])
  }

  lemma ReadLine(r: Reader, line: string, rest: string)
    requires '\n' !in line
    ensures ReadFrom(r, Ended(line) + rest) ==
      match OnLine(r, line)
      case Fails => IndexError
      case Goes(r') => if r'.buffering then ReadFrom(r', rest) else r'.Result()
  {
    var stream := Ended(line) + rest;
    var nl := Find(stream, '\n');
    assert stream[|line|] == '\n';
    assert forall i :: 0 <= i < |line| ==> stream[i] == line[i];
    assert stream[..nl] == line && stream[nl + 1..] == rest;
  }

  function WithLines(r: Reader, lines: string): Reader {
    r.WithRaw(lines).WithText(lines)
  }

  lemma TextLine(r: Reader, line: string, rest: string)
    requires r.buffering && !r.isEnd && Ordinary(line) && r.mark != Mark(line)
    ensures ReadFrom(r, Ended(line) + rest) == ReadFrom(WithLines(r, Ended(line)), rest)
  {
    ReadLine(r, line, rest);
    assert line == "" ==> Ended(line) == "\n";
  }

  lemma DroppedLine(r: Reader, line: string, rest: string)
    requires r.buffering && r.isEnd && Ordinary(line)
    ensures ReadFrom(r, Ended(line) + rest) == if line == "" then IndexError else ReadFrom(r.WithRaw(Ended(line)), rest)
  {
    ReadLine(r, line, rest);
  }

  lemma UnlinesFirst(lines: seq<string>, rest: string)
    requires lines != []
    ensures Unlines(lines) == Ended(lines[0]) + Unlines(lines[1..])
    ensures Unlines(lines) + rest == Ended(lines[0]) + (Unlines(lines[1..]) + rest)
  {
  }

  lemma WithMore(r: Reader, a: string, b: string)
    ensures WithLines(WithLines(r, a), b) == WithLines(r, a + b)
    ensures r.WithRaw(a).WithRaw(b) == r.WithRaw(a + b)
  {
    assert (r.raw + a) + b == r.raw + (a + b);
    assert (r.text + a) + b == r.text + (a + b);
  }

  lemma WithNone(r: Reader)
    ensures WithLines(r, "") == r.WithRaw("") == r
  {
    assert r.raw + "" == r.raw && r.text + "" == r.text;
  }

  /** Lines of text before the end mark are the text of the response. */
  lemma {:induction false} TextLines(r: Reader, lines: seq<string>, rest: string)
    requires r.buffering && !r.isEnd && AllOrdinary(lines) && (r.mark.Mark? ==> r.mark.line !in lines)
    ensures ReadFrom(r, Unlines(lines) + rest) == ReadFrom(WithLines(r, Unlines(lines)), rest)
    decreases |lines|
  {
    if lines == [] {
      WithNone(r);
      assert Unlines(lines) == "" && "" + rest == rest;
    } else {
      var line, more := lines[0], lines[1..];
      var next := WithLines(r, Ended(line));
      hide ReadFrom, Ordinary, Ended;
      TextLine(r, line, Unlines(more) + rest);
      TextLines(next, more, rest);
      UnlinesFirst(lines, rest);
      WithMore(r, Ended(line), Unlines(more));
    }
  }

  /** Lines behind the end mark are not, and a blank one among them is an index error. */
  lemma {:induction false} DroppedLines(r: Reader, lines: seq<string>, rest: string)
    requires r.buffering && r.isEnd && AllOrdinary(lines)
    ensures ReadFrom(r, Unlines(lines) + rest)
         == if "" in lines then IndexError else ReadFrom(r.WithRaw(Unlines(lines)), rest)
    decreases |lines|
  {
    if lines == [] {
      WithNone(r);
      assert Unlines(lines) == "" && "" + rest == rest;
    } else {
      var line, more := lines[0], lines[1..];
      hide ReadFrom, Ordinary, Ended;
      UnlinesFirst(lines, rest);
      DroppedLine(r, line, Unlines(more) + rest);
      assert lines == [line] + more;
      if line != "" {
        DroppedLines(r.WithRaw(Ended(line)), more, rest);
        WithMore(r, Ended(line), Unlines(more));
      }
    }
  }

  lemma StatusLine(r: Reader, status: string, message: string, rest: string)
    requires r.buffering && IsStatus(status) && '\n' !in message
    ensures ReadFrom(r, Ended(status + message) + rest)
         == Response(r.raw + Ended(status + message), r.text, status, message)
  {
    var line := status + message;
    assert line[..4] == status && line[4..] == message;
    ReadLine(r, line, rest);
  }

  /** A response of lines of text and a status, whatever follows it. */
  lemma PlainResponse(lines: seq<string>, status: string, message: string, rest: string)
    requires AllOrdinary(lines) && IsStatus(status) && '\n' !in message
    ensures ReadFrom(FRESH, Unlines(lines) + (Ended(status + message) + rest))
         == Response(Unlines(lines) + Ended(status + message), Unlines(lines), status, message)
  {
    hide ReadFrom, Unlines, Ended;
    TextLines(FRESH, lines, Ended(status + message) + rest);
    StatusLine(WithLines(FRESH, Unlines(lines)), status, message, rest);
    assert "" + Unlines(lines) == Unlines(lines);
  }

  /** The line that announces an end mark. */
  function Announced(mark: string): string {
    "0000 DATA END WITH '" + mark + "'"
  }

  /** The mark of a line that announces one: between the first two quotes, whatever is behind them. */
  lemma QuotedBetween(before: string, mark: string, behind: string)
    requires '\'' !in before && '\'' !in mark
    ensures Quoted(before + "'" + mark + "'" + behind) == Mark(mark)
  {
    var line := before + "'" + mark + "'" + behind;
    var rest := mark + ['\''] + behind;
    hide Find;
    FindAt(before, '\'', rest);
    assert line == before + ['\''] + rest && line[|before| + 1..] == rest;
    FindAt(mark, '\'', behind);
    assert rest[..|mark|] == mark;
  }

  /** With one quote only it reaches to the end of the line; without any there is none. */
  lemma QuotedRest(before: string, rest: string)
    requires '\'' !in before && '\'' !in rest
    ensures Quoted(before + "'" + rest) == Mark(rest) && Quoted(before) == NoMark
  {
    hide Find;
    FindAt(before, '\'', rest);
    assert before + "'" + rest == before + ['\''] + rest;
    assert (before + ['\''] + rest)[|before| + 1..] == rest;
  }

  lemma QuotedMark(before: string, mark: string)
    requires '\'' !in before && '\'' !in mark
    ensures Quoted(before + "'" + mark + "'") == Mark(mark)
  {
    QuotedBetween(before, mark, "");
    assert before + "'" + mark + "'" + "" == before + "'" + mark + "'";
  }

  lemma DataEndShape()
    ensures DATA_END != "" && DATA_END[0] == '0' && '\n' !in DATA_END && '\'' !in DATA_END
    ensures DATA_END + " " + "'" == "0000 DATA END WITH '"
  {
  }

  lemma AnnouncedShape(mark: string)
    requires '\n' !in mark && '\'' !in mark
    ensures var line := Announced(mark);
      line != "" && line[0] == '0' && Contains(line, DATA_END) && '\n' !in line && Quoted(line) == Mark(mark)
  {
    DataEndShape();
    hide DATA_END, Quoted;
    QuotedMark(DATA_END + " ", mark);
    var line := Announced(mark);
    assert line == DATA_END + (" " + "'" + mark + "'");
    assert line[0] == DATA_END[0];
  }

  lemma MarkLine(r: Reader, mark: string, rest: string)
    requires r.buffering && '\n' !in mark && '\'' !in mark
    ensures ReadFrom(r, Ended(Announced(mark)) + rest)
         == ReadFrom(r.WithRaw(Ended(Announced(mark))).(mark := Mark(mark)), rest)
  {
    AnnouncedShape(mark);
    hide Quoted, Contains, ReadFrom, Announced, DATA_END;
    ReadLine(r, Announced(mark), rest);
  }

  lemma EndLine(r: Reader, mark: string, rest: string)
    requires r.buffering && Ordinary(mark) && mark != "" && r.mark == Mark(mark)
    ensures ReadFrom(r, Ended(mark) + rest) == ReadFrom(r.WithRaw(Ended(mark)).(isEnd := true), rest)
  {
    ReadLine(r, mark, rest);
  }

  /** The two other index errors: an announcement of an end mark without a quote, and a line that is
      too short to tell whether it is a status. */
  lemma BrokenLines(r: Reader, line: string, rest: string)
    requires line != "" && '\n' !in line
    ensures line[0] == '0' && Contains(line, "0000 DATA END WITH") && '\'' !in line ==>
      ReadFrom(r, Ended(line) + rest) == IndexError
    ensures |line| < 4 && line[0] in "12345678" && (forall i :: 1 <= i < |line| ==> IsDigit(line[i])) ==>
      ReadFrom(r, Ended(line) + rest) == IndexError
  {
    hide ReadFrom, Contains, StatusTest, Quoted;
    ReadLine(r, line, rest);
    StatusTestIs(line);
    if '\'' !in line {
      QuotedRest(line, "");
    }
  }

  /** A response that announces an end mark: what follows the mark is left out of the text,
      and the reader fails exactly when a blank line follows it before the status. */
  lemma MarkedResponse(lines: seq<string>, mark: string, body: seq<string>, dropped: seq<string>,
                       status: string, message: string, rest: string)
    requires AllOrdinary(lines) && AllOrdinary(body) && AllOrdinary(dropped)
    requires Ordinary(mark) && mark != "" && '\'' !in mark && mark !in body
    requires IsStatus(status) && '\n' !in message
    ensures ReadFrom(FRESH, Unlines(lines) + (Ended(Announced(mark))
                     + (Unlines(body) + (Ended(mark) + (Unlines(dropped) + (Ended(status + message) + rest))))))
         == if "" in dropped then IndexError
            else Response(Unlines(lines) + Ended(Announced(mark)) + Unlines(body) + Ended(mark) + Unlines(dropped)
                          + Ended(status + message),
                          Unlines(lines) + Unlines(body), status, message)
  {
    var r1 := WithLines(FRESH, Unlines(lines));
    var r2 := r1.WithRaw(Ended(Announced(mark))).(mark := Mark(mark));
    var r3 := WithLines(r2, Unlines(body));
    var r4 := r3.WithRaw(Ended(mark)).(isEnd := true);
    assert "" + Unlines(lines) == Unlines(lines);
    hide ReadFrom, Unlines, Ended, Announced, IsStatus;
    var tail5 := Ended(status + message) + rest;
    var tail4 := Unlines(dropped) + tail5;
    var tail3 := Ended(mark) + tail4;
    var tail2 := Unlines(body) + tail3;
    TextLines(FRESH, lines, Ended(Announced(mark)) + tail2);
    MarkLine(r1, mark, tail2);
    TextLines(r2, body, tail3);
    EndLine(r3, mark, tail4);
    DroppedLines(r4, dropped, tail5);
    StatusLine(r4.WithRaw(Unlines(dropped)), status, message, rest);
  }
}
