/** The buffered file object on top of a stream socket. */
module FileObject {
  import opened Sequences

  const DEFAULT_BUFSIZE: Positive := 8192

  type Positive = x: int | 0 < x witness 1

  function Max(a: int, b: int): int {
    if a < b then b else a
  }

  // ----- What reading means: functions of the bytes that are still to be read -----

  /** The first size bytes, or all when size is negative. */
  function Take(all: string, size: int): string {
    if size < 0 || |all| <= size then all else all[..size]
  }

  /** That is a prefix, of size bytes if there are so many and everything otherwise; nothing for
      size zero. */
  lemma TakeIff(all: string, size: int, r: string)
    ensures r == Take(all, size) <==> r <= all && |r| == if 0 <= size <= |all| then size else |all|
  {
  }

  /** A line up to its newline, cut at size unless size is negative. */
  function Line(all: string, size: int): (line: string)
    ensures line <= all
  {
    if all == "" || size == 0 then ""
    else if all[0] == '\n' then all[..1]
    else all[..1] + Line(all[1..], size - 1)
  }

  /** The shortest prefix that ends in a newline, reaches size, or is all there is. */
  predicate IsLine(line: string, all: string, size: int) {
    && line <= all
    && (0 <= size ==> |line| <= size)
    && (forall i :: 0 <= i < |line| - 1 ==> line[i] != '\n')
    && (line == all || |line| == size || EndsLine(line))
  }

  predicate EndsLine(line: string) {
    line != "" && line[|line| - 1] == '\n'
  }

  lemma {:induction false} LineIsLine(all: string, size: int)
    ensures IsLine(Line(all, size), all, size)
    decreases |all|
  {
    if !(all == "" || size == 0 || all[0] == '\n') {
      var rest := Line(all[1..], size - 1);
      LineIsLine(all[1..], size - 1);
      var line := all[..1] + rest;
      assert line[1..] == rest;
      forall i | 0 <= i < |line| - 1 ensures line[i] != '\n' {
        assert 0 < i ==> line[i] == rest[i - 1];
      }
      assert EndsLine(rest) ==> line[|line| - 1] == rest[|rest| - 1];
      assert rest == all[1..] ==> line == all;
    }
  }

  lemma LineEmpty(all: string)
    ensures Line(all, -1) == "" <==> all == ""
  {
  }

  lemma LinesAgree(a: string, b: string, all: string, size: int)
    requires IsLine(a, all, size) && IsLine(b, all, size) && |a| <= |b|
    ensures a == b
  {
  }

  /** There is exactly one such prefix. */
  lemma LineIff(line: string, all: string, size: int)
    ensures IsLine(line, all, size) <==> line == Line(all, size)
  {
    LineIsLine(all, size);
    if IsLine(line, all, size) {
      if |line| <= |Line(all, size)| {
        LinesAgree(line, Line(all, size), all, size);
      } else {
        LinesAgree(Line(all, size), line, all, size);
      }
    }
  }

  lemma AnyNegative(line: string, all: string, size: int)
    requires size < 0 && IsLine(line, all, -1)
    ensures IsLine(line, all, size)
  {
  }

  /** A line that is complete in the buffer is the line of the stream. */
  lemma LineOfFront(front: string, behind: string, size: int)
    requires EndsLine(Line(front, size)) || |Line(front, size)| == size
    ensures Line(front + behind, size) == Line(front, size)
    ensures Line(front, size) + (front[|Line(front, size)|..] + behind) == front + behind
  {
    var line := Line(front, size);
    LineIsLine(front, size);
    LineIff(line, front + behind, size);
    assert front == line + front[|line|..];
  }

  /** Otherwise there is no newline in the buffer. */
  lemma NoLineYet(front: string, size: int)
    requires front == "" || !(EndsLine(Line(front, size)) || |Line(front, size)| == size)
    ensures '\n' !in front
  {
    LineIsLine(front, size);
  }

  /** The lines that iteration yields. */
  function Lines(all: string): seq<string>
    decreases |all|
  {
    if all == "" then []
    else
      LineIsLine(all, -1);
      var line := Line(all, -1);
      [line] + Lines(all[|line|..])
  }

  /** The lines joined give back all that was to be read. */
  lemma {:induction false} LinesJoin(all: string)
    ensures Concat(Lines(all)) == all
    decreases |all|
  {
    if all != "" {
      LineEmpty(all);
      hide Line;
      var line := Line(all, -1);
      var rest := all[|line|..];
      LinesJoin(rest);
      ConcatCons(line, Lines(rest));
    }
  }

  /** No line is empty, each but the last ends in a newline, and there are no other newlines. */
  lemma {:induction false} LinesAreLines(all: string)
    ensures forall i :: 0 <= i < |Lines(all)| ==> OneLine(Lines(all)[i])
    ensures forall i :: 0 <= i < |Lines(all)| - 1 ==> EndsLine(Lines(all)[i])
    decreases |all|
  {
    if all != "" {
      LineIsLine(all, -1);
      LineEmpty(all);
      var line := Line(all, -1);
      var rest := all[|line|..];
      assert OneLine(line) && (rest == "" || EndsLine(line));
      hide Line, IsLine, OneLine, EndsLine;
      LinesAreLines(rest);
      var lines := Lines(all);
      assert lines == [line] + Lines(rest);
      assert rest == "" ==> Lines(rest) == [];
    }
  }

  /** A text that is not empty, with no newline but perhaps its last byte. */
  predicate OneLine(line: string) {
    line != "" && forall i :: 0 <= i < |line| - 1 ==> line[i] != '\n'
  }

  /** What readlines yields: lines until they make up the hint, if there is one. */
  function LinesTo(all: string, hint: int, total: nat): seq<string>
    decreases |all|
  {
    if all == "" then []
    else
      LineIsLine(all, -1);
      var line := Line(all, -1);
      var sum := total + |line|;
      [line] + if hint != 0 && sum >= hint then [] else LinesTo(all[|line|..], hint, sum)
  }

  /** Without a hint these are all the lines. */
  lemma {:induction false} UnhintedLines(all: string, total: nat)
    ensures LinesTo(all, 0, total) == Lines(all)
    decreases |all|
  {
    if all != "" {
      LinesStep(all, 0, total);
      LineEmpty(all);
      hide Line, LinesTo, Lines;
      UnhintedLines(all[|Line(all, -1)|..], total + |Line(all, -1)|);
    }
  }

  /** With a hint they are the fewest first lines that make it up. */
  lemma {:induction false} HintedLines(all: string, hint: int, total: nat)
    requires total < hint
    ensures Fewest(LinesTo(all, hint, total), Lines(all), hint - total)
    decreases |all|
  {
    if all != "" {
      LinesStep(all, hint, total);
      LineEmpty(all);
      hide *;
      var line := Line(all, -1);
      var rest, sum := all[|line|..], total + |line|;
      if sum < hint {
        HintedLines(rest, hint, sum);
        FewestCons(line, LinesTo(rest, hint, sum), Lines(rest), hint - total);
      } else {
        FewestOne(line, Lines(rest), hint - total);
      }
    }
  }

  lemma LinesStep(all: string, hint: int, total: nat)
    requires all != ""
    ensures var line := Line(all, -1);
      var rest, sum := all[|line|..], total + |line|;
      && Lines(all) == [line] + Lines(rest)
      && LinesTo(all, hint, total) == if hint != 0 && sum >= hint then [line] else [line] + LinesTo(rest, hint, sum)
  {
    hide Line;
  }

  /** The first of some lines, which make up the hint unless all of them do not. */
  predicate Fewest(some: seq<string>, lines: seq<string>, hint: int) {
    && some <= lines
    && (some == lines || |Concat(some)| >= hint)
    && (some != [] ==> |Concat(some[..|some| - 1])| < hint)
  }

  lemma FewestCons(line: string, some: seq<string>, lines: seq<string>, hint: int)
    requires |line| < hint && Fewest(some, lines, hint - |line|)
    ensures Fewest([line] + some, [line] + lines, hint)
  {
    ConcatCons(line, some);
    if some != [] {
      var front := some[..|some| - 1];
      assert ([line] + some)[..|some|] == [line] + front;
      ConcatCons(line, front);
    }
  }

  lemma FewestOne(line: string, lines: seq<string>, hint: int)
    requires 0 < hint <= |line|
    ensures Fewest([line], [line] + lines, hint)
  {
    ConcatCons(line, []);
    assert [line] + [] == [line];
  }

  /** The lines listed so far, and what is still to be read. */
  predicate Listing(list: seq<string>, rest: string, all: string, hint: int, total: nat) {
    && list + LinesTo(rest, hint, total) == LinesTo(all, hint, 0)
    && Concat(list) + rest == all
  }

  /** The lines that readlines yields out of all, and what they leave. */
  predicate Listed(list: seq<string>, rest: string, all: string, hint: int) {
    list == LinesTo(all, hint, 0) && Concat(list) + rest == all
  }

  lemma ListOn(list: seq<string>, before: string, line: string, rest: string, all: string, hint: int, total: nat)
    requires Listing(list, before, all, hint, total)
    requires line == Line(before, -1) != "" && line + rest == before
    ensures if hint != 0 && total + |line| >= hint
      then Listed(list + [line], rest, all, hint)
      else Listing(list + [line], rest, all, hint, total + |line|)
  {
    JoinOn(list, line, rest);
    hide Line, LinesTo, Concat;
    assert before[|line|..] == rest;
    LinesStep(before, hint, total);
    if hint != 0 && total + |line| >= hint {
    } else {
      ListAssociative(list, line, LinesTo(rest, hint, total + |line|));
    }
  }

  lemma JoinOn(list: seq<string>, line: string, rest: string)
    ensures Concat(list + [line]) + rest == Concat(list) + (line + rest)
  {
    ConcatSnoc(list, line);
  }

  lemma ListAssociative(list: seq<string>, line: string, more: seq<string>)
    ensures list + ([line] + more) == (list + [line]) + more
  {
  }

  lemma ListEnd(list: seq<string>, rest: string, all: string, hint: int, total: nat)
    requires Listing(list, rest, all, hint, total) && Line(rest, -1) == ""
    ensures Listed(list, rest, all, hint)
  {
    LineEmpty(rest);
  }

  /** A call that reads. */
  datatype ReadOp = ReadBytes(size: int) | ReadOneLine(size: int) | ReadManyLines(hint: int) | NextLine

  /** The pieces of the stream that it returns. */
  function Pieces(all: string, op: ReadOp): seq<string> {
    match op
    case ReadBytes(size) => [Take(all, size)]
    case ReadOneLine(size) => [Line(all, size)]
    case ReadManyLines(hint) => LinesTo(all, hint, 0)
    case NextLine => if all == "" then [] else [Line(all, -1)]
  }

  lemma {:induction false} LinesToPrefix(all: string, hint: int, total: nat)
    ensures Concat(LinesTo(all, hint, total)) <= all
    decreases |all|
  {
    if all != "" {
      LinesStep(all, hint, total);
      LineEmpty(all);
      var line := Line(all, -1);
      var rest, sum := all[|line|..], total + |line|;
      hide *;
      if hint != 0 && sum >= hint {
        JoinOne(line);
      } else {
        var lines := LinesTo(rest, hint, sum);
        LinesToPrefix(rest, hint, sum);
        ConcatCons(line, lines);
        PrefixOn(line, Concat(lines), all);
      }
    }
  }

  lemma PrefixOn(first: string, some: string, all: string)
    requires first <= all && some <= all[|first|..]
    ensures first + some <= all
  {
    assert all == first + all[|first|..];
  }

  lemma JoinOne(piece: string)
    ensures Concat([piece]) == piece
  {
    ConcatCons(piece, []);
  }

  lemma PiecesPrefix(all: string, op: ReadOp)
    ensures Concat(Pieces(all, op)) <= all
  {
    match op
    case ReadBytes(size) => JoinOne(Take(all, size));
    case ReadOneLine(size) => JoinOne(Line(all, size));
    case ReadManyLines(hint) => LinesToPrefix(all, hint, 0);
    case NextLine => JoinOne(Line(all, -1));
  }

  function Rest(all: string, op: ReadOp): string {
    PiecesPrefix(all, op);
    all[|Concat(Pieces(all, op))|..]
  }

  function Results(all: string, ops: seq<ReadOp>): seq<string>
    decreases |ops|
  {
    if ops == [] then [] else Pieces(all, ops[0]) + Results(Rest(all, ops[0]), ops[1..])
  }

  function Remaining(all: string, ops: seq<ReadOp>): string
    decreases |ops|
  {
    if ops == [] then all else Remaining(Rest(all, ops[0]), ops[1..])
  }

  lemma {:induction false} ResultsJoin(all: string, ops: seq<ReadOp>)
    ensures Concat(Results(all, ops)) + Remaining(all, ops) == all
    decreases |ops|
  {
    if ops != [] {
      var pieces, rest := Pieces(all, ops[0]), Rest(all, ops[0]);
      PiecesPrefix(all, ops[0]);
      assert Concat(pieces) + rest == all;
      hide Pieces, Rest, Concat;
      ResultsJoin(rest, ops[1..]);
      ConcatSplit(pieces, Results(rest, ops[1..]));
    }
  }

  datatype Item = Item(line: string) | StopIteration

  /** No line yet: buf was read and is to be continued. */
  predicate Reading(buf: string, stream: string, all: string, size: int) {
    buf + stream == all && '\n' !in buf && (0 <= size ==> |buf| < size)
  }

  predicate Finished(line: string, rbuf: string, stream: string, all: string, size: int) {
    line + (rbuf + stream) == all && IsLine(line, all, size)
  }

  lemma ReadOn(buf: string, data: string, rest: string, all: string, size: int)
    requires Reading(buf, data + rest, all, size) && '\n' !in data && (0 <= size ==> |buf| + |data| < size)
    ensures Reading(buf + data, rest, all, size)
  {
  }

  lemma ReadToEnd(buf: string, all: string, size: int)
    requires Reading(buf, "", all, size)
    ensures Finished(buf, "", "", all, size)
  {
  }

  /** A line that ends inside the data just received, at a newline or at its size. */
  lemma LineEnds(buf: string, data: string, rest: string, n: nat, all: string, size: int)
    requires Reading(buf, data + rest, all, size) && 0 < n <= |data|
    requires forall i :: 0 <= i < n - 1 ==> data[i] != '\n'
    requires 0 <= size ==> |buf| + n <= size
    requires data[n - 1] == '\n' || |buf| + n == size
    ensures Finished(buf + data[..n], data[n..], rest, all, size)
  {
    var line := buf + data[..n];
    assert line[|line| - 1] == data[n - 1];
    forall i | 0 <= i < |line| - 1 ensures line[i] != '\n' {
      assert i >= |buf| ==> line[i] == data[i - |buf|];
    }
  }

  // ----- The socket -----

  /** The stream socket below: what the peer sends until it closes, and what was sent to it. */
  class Socket {
    var stream: string
    var sent: string

    constructor (stream: string)
      ensures this.stream == stream && this.sent == ""
    {
      this.stream, this.sent := stream, "";
    }

    /** Some of what has arrived, at most size bytes; nothing only when the peer has closed. */
    method Recv(size: nat) returns (data: string)
      requires 0 < size
      modifies this`stream
      ensures |data| <= size && data + stream == old(stream)
      ensures data == "" <==> old(stream) == ""
    {
      if stream == "" {
        return "";
      }
      var m: nat :| 1 <= m <= size && m <= |stream|;
      data, stream := stream[..m], stream[m..];
    }

    /** Sends everything or, when it fails, nothing. */
    method SendAll(data: string) returns (ok: bool)
      modifies this`sent
      ensures sent == old(sent) + if ok then data else ""
    {
      ok := *;
      if ok {
        sent := sent + data;
      }
    }
  }

  // ----- What writing keeps -----

  /** The two sides of the write buffer. */
  datatype Out = Out(sent: string, unsent: string)

  /** A call that was given some text. */
  predicate Keeps(before: Out, text: string, after: Out) {
    && before.sent <= after.sent
    && after.sent + after.unsent == before.sent + before.unsent + text
  }

  lemma KeepsAll(sent: string, data: string)
    ensures Keeps(Out(sent, data), "", Out(sent + data, ""))
    ensures Keeps(Out(sent, data), "", Out(sent, data))
  {
  }

  lemma KeepsSplit(sent: string, data: string, cut: nat)
    requires cut <= |data|
    ensures Keeps(Out(sent, data), "", Out(sent + data[..cut], data[cut..]))
  {
    assert data == data[..cut] + data[cut..];
    assert sent + data[..cut] + data[cut..] == sent + (data[..cut] + data[cut..]);
  }

  lemma KeepsTrans(a: Out, x: string, b: Out, y: string, c: Out)
    requires Keeps(a, x, b) && Keeps(b, y, c)
    ensures Keeps(a, x + y, c)
  {
    assert (a.sent + a.unsent + x) + y == a.sent + a.unsent + (x + y);
  }

  lemma SentOn(sent: string, data: string, i: nat, j: nat)
    requires i <= j <= |data|
    ensures sent + data[..i] + data[i..j] == sent + data[..j]
    ensures j == |data| ==> data[..j] == data
  {
    assert data[..i] + data[i..j] == data[..j];
    assert sent + data[..i] + data[i..j] == sent + (data[..i] + data[i..j]);
  }

  /** So many bytes are any number of pieces of this size. */
  predicate WholePieces(n: int, size: Positive)
    decreases n
  {
    n == 0 || (size <= n && WholePieces(n - size, size))
  }

  /** A call that writes. */
  datatype WriteOp = WriteText(text: string) | WriteMany(list: seq<string>) | FlushAll

  function TextOf(op: WriteOp): string {
    match op
    case WriteText(text) => text
    case WriteMany(list) => Concat(list)
    case FlushAll => ""
  }

  function Texts(ops: seq<WriteOp>): string {
    if ops == [] then "" else Texts(ops[..|ops| - 1]) + TextOf(ops[|ops| - 1])
  }

  // ----- The file object -----

  class FileObject {
    const sock: Socket
    var rbuf: string
    const rbufsize: Positive
    var wbuf: seq<string>
    var wbufLen: nat
    const wbufsize: nat

    constructor (sock: Socket, bufsize: int)
      ensures this.sock == sock && rbuf == "" && wbuf == [] && wbufLen == 0
      ensures wbufsize == if bufsize < 0 then 8192 else bufsize
      ensures rbufsize == if bufsize < 0 || bufsize == 1 then 8192 else if bufsize == 0 then 1 else bufsize
    {
      var size: nat := if bufsize < 0 then DEFAULT_BUFSIZE else bufsize;
      this.sock := sock;
      rbufsize := if size == 0 then 1 else if size == 1 then DEFAULT_BUFSIZE else size;
      wbufsize := size;
      rbuf, wbuf, wbufLen := "", [], 0;
    }

    /** All that is still to be read, wherever it is. */
    ghost function Unread(): string
      reads this, sock
    {
      rbuf + sock.stream
    }

    method Read(size: int) returns (r: string)
      modifies this`rbuf, sock`stream
      ensures r == Take(old(Unread()), size)
      ensures r + Unread() == old(Unread())
      ensures 0 <= size <= old(|rbuf|) ==> sock.stream == old(sock.stream)
      ensures !(0 <= size <= old(|rbuf|)) ==> rbuf == ""
    {
      ghost var all := Unread();
      var most := Max(rbufsize, DEFAULT_BUFSIZE);
      var buf := rbuf;
      if size < 0 {
        rbuf := "";
        while true
          invariant rbuf == "" && buf + sock.stream == all
          decreases |sock.stream|
        {
          var data := sock.Recv(most);
          if data == "" {
            break;
          }
          buf := buf + data;
        }
        return buf;
      }
      var bufLen := |buf|;
      if bufLen >= size {
        r, rbuf := buf[..size], buf[size..];
        return;
      }
      rbuf := "";
      while true
        invariant rbuf == "" && buf + sock.stream == all && bufLen == |buf| < size
        decreases |sock.stream|
      {
        var left := size - bufLen;
        var data := sock.Recv(left);
        if data == "" {
          break;
        }
        var n := |data|;
        if n == size && bufLen == 0 {
          return data;
        }
        if n == left {
          buf := buf + data;
          break;
        }
        buf := buf + data;
        bufLen := bufLen + n;
      }
      return buf;
    }

    /** Reads a line, cut at size; it reads ahead by less than a bufferful. */
    method ReadLine(size: int) returns (r: string)
      modifies this`rbuf, sock`stream
      ensures r == Line(old(Unread()), size)
      ensures r + Unread() == old(Unread())
      ensures |rbuf| <= old(|rbuf|) || |rbuf| < rbufsize
    {
      hide IsLine;
      ghost var all := Unread();
      var buf := rbuf;
      if |buf| > 0 {
        var bline := Line(buf, size);
        if EndsLine(bline) || |bline| == size {
          LineOfFront(buf, sock.stream, size);
          rbuf := buf[|bline|..];
          return bline;
        }
      }
      NoLineYet(buf, size);
      if size < 0 {
        r := ReadLineUnsized(buf);
        AnyNegative(r, all, size);
      } else {
        r := ReadLineSized(buf, size);
      }
      LineIff(r, all, size);
    }

    method ReadLineUnsized(start: string) returns (r: string)
      requires start == rbuf && '\n' !in start
      modifies this`rbuf, sock`stream
      ensures Finished(r, rbuf, sock.stream, old(Unread()), -1)
      ensures |rbuf| <= old(|rbuf|) || |rbuf| < rbufsize
    {
      ghost var all := Unread();
      var buf := start;
      rbuf := "";
      hide Finished;
      if rbufsize <= 1 {
        var data := "";
        while data != "\n"
          invariant rbuf == ""
          invariant data != "\n" ==> Reading(buf, sock.stream, all, -1)
          invariant data == "\n" ==> Finished(buf, "", sock.stream, all, -1)
          decreases |sock.stream|, data != "\n"
        {
          hide Reading;
          data := sock.Recv(1);
          if data == "" {
            ReadToEnd(buf, all, -1);
            break;
          }
          if data == "\n" {
            LineEnds(buf, data, sock.stream, 1, all, -1);
          } else {
            ReadOn(buf, data, sock.stream, all, -1);
          }
          buf := buf + data;
        }
        return buf;
      }
      while true
        invariant rbuf == "" && Reading(buf, sock.stream, all, -1)
        decreases |sock.stream|
      {
        hide Reading;
        var data := sock.Recv(rbufsize);
        if data == "" {
          ReadToEnd(buf, all, -1);
          break;
        }
        var nl := Find(data, '\n');
        if nl >= 0 {
          nl := nl + 1;
          LineEnds(buf, data, sock.stream, nl, all, -1);
          assert rbuf + data[nl..] == data[nl..];
          buf, rbuf := buf + data[..nl], rbuf + data[nl..];
          break;
        }
        ReadOn(buf, data, sock.stream, all, -1);
        buf := buf + data;
      }
      return buf;
    }

    method ReadLineSized(start: string, size: nat) returns (r: string)
      requires start == rbuf && '\n' !in start
      modifies this`rbuf, sock`stream
      ensures Finished(r, rbuf, sock.stream, old(Unread()), size)
      ensures |rbuf| <= old(|rbuf|) || |rbuf| < rbufsize
    {
      ghost var all := Unread();
      var buf := start;
      var bufLen := |buf|;
      if bufLen >= size {
        r, rbuf := buf[..size], buf[size..];
        return;
      }
      rbuf := "";
      hide Finished;
      while true
        invariant rbuf == "" && Reading(buf, sock.stream, all, size) && bufLen == |buf| < size
        decreases |sock.stream|
      {
        hide Reading;
        var data := sock.Recv(rbufsize);
        if data == "" {
          ReadToEnd(buf, all, size);
          break;
        }
        var left := size - bufLen;
        var nl := Find(if left < |data| then data[..left] else data, '\n');
        if nl >= 0 {
          nl := nl + 1;
          LineEnds(buf, data, sock.stream, nl, all, size);
          assert rbuf + data[nl..] == data[nl..];
          rbuf := rbuf + data[nl..];
          if bufLen != 0 {
            buf := buf + data[..nl];
            break;
          }
          assert buf + data[..nl] == data[..nl];
          return data[..nl];
        }
        var n := |data|;
        if n >= left {
          LineEnds(buf, data, sock.stream, left, all, size);
        }
        if n == size && bufLen == 0 {
          assert buf + data[..left] == data && data[left..] == "";
          return data;
        }
        if n >= left {
          assert rbuf + data[left..] == data[left..];
          buf, rbuf := buf + data[..left], rbuf + data[left..];
          break;
        }
        ReadOn(buf, data, sock.stream, all, size);
        buf := buf + data;
        bufLen := bufLen + n;
      }
      return buf;
    }

    method ReadLines(sizehint: int) returns (list: seq<string>)
      modifies this`rbuf, sock`stream
      ensures Listed(list, Unread(), old(Unread()), sizehint)
      ensures |rbuf| <= old(|rbuf|) || |rbuf| < rbufsize
    {
      ghost var all := Unread();
      var total: nat := 0;
      list := [];
      assert Listing(list, all, all, sizehint, total);
      hide *;
      while true
        invariant Listing(list, Unread(), all, sizehint, total)
        invariant |rbuf| <= old(|rbuf|) || |rbuf| < rbufsize
        decreases |Unread()|
      {
        ghost var before := Unread();
        var line := ReadLine(-1);
        if line == "" {
          assert before == Unread();
          ListEnd(list, before, all, sizehint, total);
          return;
        }
        ListOn(list, before, line, Unread(), all, sizehint, total);
        list := list + [line];
        total := total + |line|;
        if sizehint != 0 && total >= sizehint {
          return;
        }
      }
    }

    /** Iteration yields the lines one by one. */
    method Next() returns (r: Item)
      modifies this`rbuf, sock`stream
      ensures r.StopIteration? <==> Lines(old(Unread())) == []
      ensures r.StopIteration? ==> Unread() == ""
      ensures r.Item? ==> [r.line] + Lines(Unread()) == Lines(old(Unread()))
      ensures r.Item? ==> r.line == Line(old(Unread()), -1) && r.line + Unread() == old(Unread())
      ensures |rbuf| <= old(|rbuf|) || |rbuf| < rbufsize
    {
      ghost var all := Unread();
      LineIsLine(all, -1);
      var line := ReadLine(-1);
      if line == "" {
        return StopIteration;
      }
      assert all[|line|..] == Unread();
      return Item(line);
    }

    /** What was written so far: what has been sent, and what has not. */
    ghost function Written(): Out
      reads this, sock
    {
      Out(sock.sent, Concat(wbuf))
    }

    ghost predicate Counted()
      reads this
    {
      wbufLen == |Concat(wbuf)|
    }

    /** How much is sent at a time. */
    function PieceSize(): (n: nat)
      ensures n == if rbufsize < 8192 then 8192 else rbufsize
    {
      Max(rbufsize, DEFAULT_BUFSIZE)
    }

    /** Sends data piece by piece until a piece fails. */
    method SendPieces(data: string) returns (offset: nat, ok: bool)
      modifies sock`sent
      ensures ok <==> |data| <= offset
      ensures WholePieces(offset, PieceSize())
      ensures sock.sent == old(sock.sent) + if ok then data else data[..offset]
    {
      var bufferSize := Max(rbufsize, DEFAULT_BUFSIZE);
      offset, ok := 0, true;
      while offset < |data| && ok
        invariant sock.sent == old(sock.sent) + if offset < |data| then data[..offset] else data
        invariant !ok ==> offset < |data|
        invariant WholePieces(offset, PieceSize())
        decreases |data| - offset, ok
      {
        var end := if offset + bufferSize < |data| then offset + bufferSize else |data|;
        ok := sock.SendAll(data[offset..end]);
        SentOn(old(sock.sent), data, offset, end);
        if ok {
          offset := offset + bufferSize;
        }
      }
    }

    /** Sends what is buffered; of what cannot be sent in full whole pieces are, and the rest
        stays buffered. */
    method Flush() returns (ok: bool)
      requires Counted()
      modifies this`wbuf, this`wbufLen, sock`sent
      ensures Counted() && Keeps(old(Written()), "", Written())
      ensures ok ==> wbuf == []
      ensures !ok ==> wbuf != [] && WholePieces(|sock.sent| - |old(sock.sent)|, PieceSize())
    {
      ok := true;
      if wbuf != [] {
        var data := Concat(wbuf);
        assert Concat<char>([]) == "";
        ghost var sent := sock.sent;
        KeepsAll(sent, data);
        hide Concat, Keeps;
        wbuf, wbufLen := [], 0;
        var offset;
        offset, ok := SendPieces(data);
        if offset < |data| {
          var remainder := data[offset..];
          wbuf := wbuf + [remainder];
          wbufLen := |remainder|;
          assert Concat(wbuf) == remainder by {
            ConcatSnoc([], remainder);
            assert [] + [remainder] == [remainder] && "" + remainder == remainder;
          }
          KeepsSplit(sent, data, offset);
        }
      }
    }

    /** A successful write sends everything once a bufferful is reached, and nothing before; so it
        leaves less than a bufferful unsent, unless it writes nothing and found more. */
    method Write(data: string) returns (ok: bool)
      requires Counted()
      modifies this`wbuf, this`wbufLen, sock`sent
      ensures Counted() && Keeps(old(Written()), data, Written())
      ensures data == "" ==> ok && wbuf == old(wbuf) && wbufLen == old(wbufLen)
      ensures ok && data != "" && wbufsize <= old(wbufLen) + |data| ==> wbuf == []
      ensures data == "" || old(wbufLen) + |data| < wbufsize ==> ok && sock.sent == old(sock.sent)
      ensures ok ==> (wbufLen < Max(1, wbufsize) <==> data != "" || old(wbufLen) < Max(1, wbufsize))
      ensures !ok ==> wbuf != [] && WholePieces(|sock.sent| - |old(sock.sent)|, PieceSize())
    {
      if data == "" {
        return true;
      }
      ConcatSnoc(wbuf, data);
      wbuf := wbuf + [data];
      wbufLen := wbufLen + |data|;
      assert Keeps(old(Written()), data, Written());
      if wbufsize == 0 || (wbufsize == 1 && '\n' in data) || wbufLen >= wbufsize {
        ok := Flush();
      } else {
        ok := true;
      }
    }

    method WriteLines(list: seq<string>) returns (ok: bool)
      requires Counted()
      modifies this`wbuf, this`wbufLen, sock`sent
      ensures Counted() && Keeps(old(Written()), Concat(list), Written())
      ensures ok && (wbufsize <= 1 || wbufsize <= old(wbufLen) + |Concat(list)|) ==> wbuf == []
      ensures 1 < wbufsize && old(wbufLen) + |Concat(list)| < wbufsize ==> ok && sock.sent == old(sock.sent)
      ensures ok ==> wbufLen < Max(1, wbufsize)
      ensures !ok ==> wbuf != [] && WholePieces(|sock.sent| - |old(sock.sent)|, PieceSize())
    {
      var lines := NonEmpty(list);
      NonEmptyJoin(list);
      ConcatSplit(wbuf, lines);
      wbufLen := wbufLen + |Concat(lines)|;
      wbuf := wbuf + lines;
      assert Keeps(old(Written()), Concat(list), Written());
      if wbufsize <= 1 || wbufLen >= wbufsize {
        ok := Flush();
      } else {
        ok := true;
      }
    }
  }

  // ----- Runs of calls -----

  method ReadOne(f: FileObject, op: ReadOp) returns (pieces: seq<string>)
    modifies f`rbuf, f.sock`stream
    ensures pieces == Pieces(old(f.Unread()), op) && f.Unread() == Rest(old(f.Unread()), op)
    ensures |f.rbuf| <= old(|f.rbuf|) || |f.rbuf| < f.rbufsize
  {
    ghost var all := f.Unread();
    match op
    case ReadBytes(size) =>
      var r := f.Read(size);
      JoinOne(r);
      pieces := [r];
    case ReadOneLine(size) =>
      var r := f.ReadLine(size);
      JoinOne(r);
      pieces := [r];
    case ReadManyLines(hint) =>
      pieces := f.ReadLines(hint);
    case NextLine =>
      LineEmpty(all);
      var r := f.Next();
      match r {
        case StopIteration => pieces := [];
        case Item(line) =>
          JoinOne(line);
          pieces := [line];
      }
  }

  /** Any mixture of reading calls, however recv cuts the stream: each returns what it returns of
      the stream that the calls before it left, and joined with what is left it all gives back the
      stream in order, with no byte lost or repeated. None reads ahead by a bufferful, so an object
      without buffer does not at all. */
  method MixedReads(f: FileObject, ops: seq<ReadOp>) returns (results: seq<string>)
    modifies f`rbuf, f.sock`stream
    ensures results == Results(old(f.Unread()), ops) && f.Unread() == Remaining(old(f.Unread()), ops)
    ensures Concat(results) + f.Unread() == old(f.Unread())
    ensures |f.rbuf| <= old(|f.rbuf|) || |f.rbuf| < f.rbufsize
  {
    ghost var all, ahead := f.Unread(), |f.rbuf|;
    ResultsJoin(all, ops);
    results := [];
    var i := 0;
    assert ops[0..] == ops && [] + Results(all, ops) == Results(all, ops);
    while i < |ops|
      invariant ReadSoFar(f, all, ahead, ops, i, results)
    {
      hide *;
      results := ReadNext(f, all, ahead, ops, i, results);
      i := i + 1;
    }
    assert ops[i..] == [];
  }

  /** The calls so far, and what they returned. */
  ghost predicate ReadSoFar(f: FileObject, all: string, ahead: nat, ops: seq<ReadOp>, i: int, results: seq<string>)
    reads f, f.sock
  {
    && 0 <= i <= |ops|
    && results + Results(f.Unread(), ops[i..]) == Results(all, ops)
    && Remaining(f.Unread(), ops[i..]) == Remaining(all, ops)
    && (|f.rbuf| <= ahead || |f.rbuf| < f.rbufsize)
  }

  method ReadNext(f: FileObject, ghost all: string, ghost ahead: nat, ops: seq<ReadOp>, i: nat, results: seq<string>)
    returns (more: seq<string>)
    requires ReadSoFar(f, all, ahead, ops, i, results) && i < |ops|
    modifies f`rbuf, f.sock`stream
    ensures ReadSoFar(f, all, ahead, ops, i + 1, more)
  {
    hide Pieces, Rest, Results, Remaining;
    ghost var before := f.Unread();
    ResultsStep(before, ops, i);
    var pieces := ReadOne(f, ops[i]);
    more := results + pieces;
    assert more + Results(f.Unread(), ops[i + 1..]) == results + (pieces + Results(f.Unread(), ops[i + 1..]));
  }

  lemma ResultsStep(all: string, ops: seq<ReadOp>, i: nat)
    requires i < |ops|
    ensures Results(all, ops[i..]) == Pieces(all, ops[i]) + Results(Rest(all, ops[i]), ops[i + 1..])
    ensures Remaining(all, ops[i..]) == Remaining(Rest(all, ops[i]), ops[i + 1..])
  {
    hide Pieces, Rest;
    assert ops[i..][1..] == ops[i + 1..];
  }

  /** What success says: a flush leaves nothing behind, a write of something less than a bufferful. */
  ghost predicate Settled(f: FileObject, op: WriteOp, ok: bool)
    reads f
  {
    ok ==>
      && (op.FlushAll? ==> f.wbuf == [])
      && (TextOf(op) != "" ==> f.wbufLen < Max(1, f.wbufsize))
  }

  method WriteOne(f: FileObject, op: WriteOp) returns (ok: bool)
    requires f.Counted()
    modifies f`wbuf, f`wbufLen, f.sock`sent
    ensures f.Counted() && Keeps(old(f.Written()), TextOf(op), f.Written())
    ensures Settled(f, op, ok)
  {
    match op
    case WriteText(text) => ok := f.Write(text);
    case WriteMany(list) => ok := f.WriteLines(list);
    case FlushAll => ok := f.Flush();
  }

  /** Any mixture of writing calls, of which any may fail: what was sent is a prefix of what was
      written, the rest is still buffered, and it is counted. After a successful flush all was sent. */
  method MixedWrites(f: FileObject, ops: seq<WriteOp>) returns (oks: seq<bool>)
    requires f.Counted() && f.wbuf == []
    modifies f`wbuf, f`wbufLen, f.sock`sent
    ensures f.Counted() && |oks| == |ops|
    ensures old(f.sock.sent) <= f.sock.sent
    ensures f.sock.sent + Concat(f.wbuf) == old(f.sock.sent) + Texts(ops)
    ensures ops != [] ==> Settled(f, ops[|ops| - 1], oks[|ops| - 1])
    ensures f.wbuf == [] ==> f.sock.sent == old(f.sock.sent) + Texts(ops)
  {
    oks := [];
    ghost var start := f.Written();
    KeepsNothing(start);
    assert Texts(ops[..0]) == "" && start == Out(f.sock.sent, "");
    while |oks| < |ops|
      invariant Progress(f, start, ops, oks)
    {
      hide *;
      oks := WriteNext(f, start, ops, oks);
    }
    assert ops[..|ops|] == ops;
    KeptFromNothing(f, start, Texts(ops));
  }

  /** The calls so far, and how each ended. */
  ghost predicate Progress(f: FileObject, start: Out, ops: seq<WriteOp>, oks: seq<bool>)
    reads f, f.sock
  {
    && |oks| <= |ops| && f.Counted()
    && Keeps(start, Texts(ops[..|oks|]), f.Written())
    && (oks != [] ==> Settled(f, ops[|oks| - 1], oks[|oks| - 1]))
  }

  method WriteNext(f: FileObject, ghost start: Out, ops: seq<WriteOp>, oks: seq<bool>) returns (more: seq<bool>)
    requires Progress(f, start, ops, oks) && |oks| < |ops|
    modifies f`wbuf, f`wbufLen, f.sock`sent
    ensures |more| == |oks| + 1 && Progress(f, start, ops, more)
  {
    hide Keeps, TextOf, Texts, Settled;
    var n := |oks|;
    ghost var before := f.Written();
    var ok := WriteOne(f, ops[n]);
    KeepsTrans(start, Texts(ops[..n]), before, TextOf(ops[n]), f.Written());
    TextsStep(ops, n);
    more := oks + [ok];
  }

  lemma KeepsNothing(out: Out)
    ensures Keeps(out, "", out)
  {
  }

  lemma TextsStep(ops: seq<WriteOp>, n: nat)
    requires n < |ops|
    ensures Texts(ops[..n + 1]) == Texts(ops[..n]) + TextOf(ops[n])
  {
    assert ops[..n + 1][..n] == ops[..n];
  }

  lemma KeptFromNothing(f: FileObject, start: Out, text: string)
    requires start.unsent == "" && Keeps(start, text, f.Written())
    ensures start.sent <= f.sock.sent && f.sock.sent + Concat(f.wbuf) == start.sent + text
    ensures f.wbuf == [] ==> f.sock.sent == start.sent + text
  {
    assert start.sent + "" == start.sent;
    assert f.wbuf == [] ==> Concat(f.wbuf) == "" && f.sock.sent + "" == f.sock.sent;
  }

  /** The exception to the bound: a write that cannot be sent, and then one of nothing, which
      succeeds over a buffer that is more than full. */
  method WriteNothing(sock: Socket) returns (f: FileObject, sent: bool, ok: bool)
    modifies sock`sent
    ensures !sent ==> ok && f.wbufsize == 4 && f.wbufLen == 5
  {
    f := new FileObject(sock, 4);
    sent := f.Write("hello");
    ok := f.Write("");
  }

  function NonEmpty(list: seq<string>): seq<string> {
    if list == [] then []
    else
      var front, last := NonEmpty(list[..|list| - 1]), list[|list| - 1];
      if last == "" then front else front + [last]
  }

  lemma {:induction false} NonEmptyJoin(list: seq<string>)
    ensures Concat(NonEmpty(list)) == Concat(list)
  {
    if list != [] {
      var front, last := list[..|list| - 1], list[|list| - 1];
      NonEmptyJoin(front);
      ConcatSnoc(NonEmpty(front), last);
    }
  }
}
