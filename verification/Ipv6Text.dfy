/** Conversion of IPv6 addresses from text to eight numbers. */
module Ipv6Text {
  import opened Sequences

  /** What reading a number in base 16 gives; which texts are numbers is left open. */
  datatype Number = Value(n: int) | ValueError

  datatype Address = Groups(g: seq<int>) | Failed

  // ----- Splitting -----

  function Split(s: string, c: char): (parts: seq<string>)
    ensures parts != []
    decreases |s|
  {
    var i := Find(s, c);
    if i == -1 then [s] else [s[..i]] + Split(s[i + 1..], c)
  }

  function Join(parts: seq<string>, c: char): string {
    if parts == [] then ""
    else if |parts| == 1 then parts[0]
    else parts[0] + [c] + Join(parts[1..], c)
  }

  lemma FirstPart(a: string, c: char, b: string)
    requires c !in a
    ensures Split(a + [c] + b, c) == [a] + Split(b, c)
  {
    FindAt(a, c, b);
    var s := a + [c] + b;
    assert s[..|a|] == a && s[|a| + 1..] == b;
  }

  /** A text is split at each separator. */
  lemma {:induction false} SplitAt(a: string, c: char, b: string)
    ensures Split(a + [c] + b, c) == Split(a, c) + Split(b, c)
    decreases |a|
  {
    var i := Find(a, c);
    if i == -1 {
      FirstPart(a, c, b);
    } else {
      var front, rest := a[..i], a[i + 1..];
      assert a == front + [c] + rest;
      assert a + [c] + b == front + [c] + (rest + [c] + b);
      FirstPart(front, c, rest + [c] + b);
      SplitAt(rest, c, b);
    }
  }

  /** Splitting undoes joining. */
  lemma {:induction false} SplitJoin(parts: seq<string>, c: char)
    requires parts != [] && forall i :: 0 <= i < |parts| ==> c !in parts[i]
    ensures Split(Join(parts, c), c) == parts
    decreases |parts|
  {
    if |parts| == 1 {
      assert parts == [parts[0]];
    } else {
      FirstPart(parts[0], c, Join(parts[1..], c));
      SplitJoin(parts[1..], c);
    }
  }

  // ----- The conversion -----

  /** The numbers that the parts stand for; an empty part stands for zero when that is allowed. */
  function Numbers(hex: string -> Number, parts: seq<string>, empties: bool): Address {
    if parts == [] then Groups([])
    else
      var front, last := Numbers(hex, parts[..|parts| - 1], empties), parts[|parts| - 1];
      if front.Failed? then Failed
      else if empties && last == "" then Groups(front.g + [0])
      else if hex(last).ValueError? then Failed
      else Groups(front.g + [hex(last).n])
  }

  function Zeros(n: int): seq<int> {
    if n <= 0 then [] else Zeros(n - 1) + [0]
  }

  /** The parts before the first empty one, and those behind it. */
  function Front(parts: seq<string>): seq<string> {
    var k := Find(parts, "");
    if k == -1 then parts else parts[..k]
  }

  function Rest(parts: seq<string>): seq<string> {
    var k := Find(parts, "");
    if k == -1 then [] else parts[k + 1..]
  }

  /** The first empty part stands for all the zeros that are missing. */
  function Converted(hex: string -> Number, parts: seq<string>): Address {
    Both(Numbers(hex, Front(parts), false), |Rest(parts)|, Numbers(hex, Rest(parts), true))
  }

  function Both(front: Address, n: nat, rest: Address): Address {
    if front.Failed? || rest.Failed? then Failed else Groups(Padded(front.g, n) + rest.g)
  }

  /** As many zeros behind the numbers as leave room for n more. */
  function Padded(front: seq<int>, n: nat): seq<int> {
    front + Zeros(8 - n - |front|)
  }

  lemma NumbersStep(hex: string -> Number, parts: seq<string>, i: nat, empties: bool)
    requires i < |parts|
    ensures Numbers(hex, parts[..i + 1], empties) ==
      var front := Numbers(hex, parts[..i], empties);
      if front.Failed? then Failed
      else if empties && parts[i] == "" then Groups(front.g + [0])
      else if hex(parts[i]).ValueError? then Failed
      else Groups(front.g + [hex(parts[i]).n])
  {
    assert parts[..i + 1][..i] == parts[..i];
  }

  lemma {:induction false} NumbersFail(hex: string -> Number, parts: seq<string>, i: nat, empties: bool)
    requires i <= |parts| && Numbers(hex, parts[..i], empties).Failed?
    ensures Numbers(hex, parts, empties).Failed?
    decreases |parts| - i
  {
    if i == |parts| {
      assert parts[..i] == parts;
    } else {
      NumbersStep(hex, parts, i, empties);
      NumbersFail(hex, parts, i + 1, empties);
    }
  }

  /** Whether the part at the index belongs to the front. */
  lemma FrontAt(parts: seq<string>, index: nat)
    requires index <= |Front(parts)| && index < |parts|
    ensures if parts[index] == "" then index == |Front(parts)| && Rest(parts) == parts[index + 1..]
            else index < |Front(parts)| && Front(parts)[index] == parts[index]
  {
  }

  lemma FrontEnd(parts: seq<string>)
    ensures |Front(parts)| <= |parts|
    ensures |Front(parts)| == |parts| ==> Rest(parts) == []
  {
  }

  /** One part further, or to the failure of all of them. */
  lemma Advance(hex: string -> Number, parts: seq<string>, i: nat, empties: bool, done: seq<int>)
    requires i < |parts| && Numbers(hex, parts[..i], empties) == Groups(done)
    ensures
      if empties && parts[i] == "" then Numbers(hex, parts[..i + 1], empties) == Groups(done + [0])
      else if hex(parts[i]).ValueError? then Numbers(hex, parts, empties) == Failed
      else Numbers(hex, parts[..i + 1], empties) == Groups(done + [hex(parts[i]).n])
  {
    NumbersStep(hex, parts, i, empties);
    if !(empties && parts[i] == "") && hex(parts[i]).ValueError? {
      NumbersFail(hex, parts, i + 1, empties);
    }
  }

  lemma ZerosStep(n: nat)
    ensures Zeros(n + 1) == Zeros(n) + [0] && |Zeros(n)| == n
  {
    if n > 0 {
      ZerosStep(n - 1);
    }
  }

  /** Fills up with zeros, to leave room for the rest. */
  method Pad(start: seq<int>, rest: nat) returns (address: seq<int>)
    ensures address == Padded(start, rest)
  {
    address := start;
    ghost var n := 0;
    assert start + Zeros(0) == start;
    while |address| < 8 - rest
      invariant address == start + Zeros(n) && |address| == |start| + n
      invariant n == 0 || |address| <= 8 - rest
    {
      ZerosStep(n);
      address := address + [0];
      n := n + 1;
    }
    assert n == 0 ==> Zeros(8 - rest - |start|) == Zeros(0);
  }

  /** The numbers up to the first empty part, and where to go on. */
  method ReadFront(hex: string -> Number, split: seq<string>) returns (ok: bool, address: seq<int>, index: nat)
    ensures ok <==> Numbers(hex, Front(split), false).Groups?
    ensures ok ==> Numbers(hex, Front(split), false) == Groups(address)
    ensures ok ==> index <= |split| && split[index..] == Rest(split)
  {
    ok, address, index := true, [], 0;
    FrontEnd(split);
    ghost var front := Front(split);
    assert Numbers(hex, front[..0], false) == Groups([]);
    assert front[..|front|] == front;
    hide *;
    while index < |split|
      invariant 0 <= index <= |front| && Numbers(hex, front[..index], false) == Groups(address)
    {
      FrontAt(split, index);
      var integer := split[index];
      index := index + 1;
      if integer == "" {
        break;
      }
      Advance(hex, front, index - 1, false, address);
      if hex(integer).ValueError? {
        return false, [], 0;
      }
      address := address + [hex(integer).n];
    }
  }

  /** The numbers of the other parts. */
  method ReadRest(hex: string -> Number, parts: seq<string>) returns (ok: bool, numbers: seq<int>)
    ensures ok <==> Numbers(hex, parts, true).Groups?
    ensures ok ==> Numbers(hex, parts, true) == Groups(numbers)
  {
    ok, numbers := true, [];
    assert Numbers(hex, parts[..0], true) == Groups([]);
    assert parts[..|parts|] == parts;
    hide *;
    var k := 0;
    while k < |parts|
      invariant 0 <= k <= |parts| && Numbers(hex, parts[..k], true) == Groups(numbers)
    {
      var integer := parts[k];
      Advance(hex, parts, k, true, numbers);
      k := k + 1;
      if integer == "" {
        numbers := numbers + [0];
        continue;
      }
      if hex(integer).ValueError? {
        return false, [];
      }
      numbers := numbers + [hex(integer).n];
    }
  }

  method AddressToArray(hex: string -> Number, text: string) returns (r: Address)
    ensures r == Converted(hex, Split(text, ':'))
  {
    var split := Split(text, ':');
    hide Numbers, Zeros, Split, Front, Rest, Padded;
    var ok, address, index := ReadFront(hex, split);
    if !ok {
      return Failed;
    }
    var others := split[index..];
    address := Pad(address, |others|);
    var numbers;
    ok, numbers := ReadRest(hex, others);
    if !ok {
      return Failed;
    }
    return Groups(address + numbers);
  }

  // ----- Reading what was written -----

  /** The text of a group, which stands for its value. */
  predicate Stands(hex: string -> Number, text: string, value: int) {
    text != "" && ':' !in text && hex(text) == Value(value)
  }

  predicate AllStand(hex: string -> Number, texts: seq<string>, values: seq<int>) {
    |texts| == |values| && forall i :: 0 <= i < |texts| ==> Stands(hex, texts[i], values[i])
  }

  lemma {:induction false} NumbersOfTexts(hex: string -> Number, texts: seq<string>, values: seq<int>, empties: bool)
    requires AllStand(hex, texts, values)
    ensures Numbers(hex, texts, empties) == Groups(values)
    decreases |texts|
  {
    if texts == [] {
      assert values == [];
    } else {
      var n := |texts| - 1;
      NumbersOfTexts(hex, texts[..n], values[..n], empties);
      assert Stands(hex, texts[n], values[n]);
      assert values == values[..n] + [values[n]];
    }
  }

  lemma NoEmpties(hex: string -> Number, texts: seq<string>, values: seq<int>)
    requires AllStand(hex, texts, values)
    ensures "" !in texts && Front(texts) == texts && Rest(texts) == []
  {
    forall i | 0 <= i < |texts| ensures texts[i] != "" {
      assert Stands(hex, texts[i], values[i]);
    }
  }

  lemma SplitTexts(hex: string -> Number, texts: seq<string>, values: seq<int>)
    requires AllStand(hex, texts, values)
    ensures Split(Join(texts, ':'), ':') == if texts == [] then [""] else texts
  {
    if texts != [] {
      forall i | 0 <= i < |texts| ensures ':' !in texts[i] {
        assert Stands(hex, texts[i], values[i]);
      }
      SplitJoin(texts, ':');
    }
  }

  /** Eight groups written out in full are read back. */
  lemma FullAddress(hex: string -> Number, texts: seq<string>, values: seq<int>)
    requires |values| == 8 && AllStand(hex, texts, values)
    ensures Converted(hex, Split(Join(texts, ':'), ':')) == Groups(values)
  {
    SplitTexts(hex, texts, values);
    NoEmpties(hex, texts, values);
    NumbersOfTexts(hex, texts, values, false);
    assert Numbers(hex, [], true) == Groups([]);
    assert values + Zeros(0) + [] == values;
  }

  lemma DoubleColon(a: string, b: string)
    ensures a + "::" + b == a + [':'] + ("" + [':'] + b)
  {
  }

  lemma Regroup(a: seq<string>, m: seq<string>, b: seq<string>)
    ensures a + (m + b) == a + m + b
  {
  }

  /** The parts of a text with a double colon. */
  lemma CompressedParts(a: string, b: string)
    ensures Split(a + "::" + b, ':') == Split(a, ':') + [""] + Split(b, ':')
  {
    assert Split("", ':') == [""];
    hide Split;
    DoubleColon(a, b);
    SplitAt(a, ':', "" + [':'] + b);
    SplitAt("", ':', b);
    Regroup(Split(a, ':'), [""], Split(b, ':'));
  }

  function OrEmpty(texts: seq<string>): seq<string> {
    if texts == [] then [""] else texts
  }

  lemma CompressedTexts(hex: string -> Number, a: seq<string>, b: seq<string>, va: seq<int>, vb: seq<int>)
    requires AllStand(hex, a, va) && AllStand(hex, b, vb)
    ensures Split(Join(a, ':') + "::" + Join(b, ':'), ':') == OrEmpty(a) + [""] + OrEmpty(b)
  {
    SplitTexts(hex, a, va);
    SplitTexts(hex, b, vb);
    hide Split, Join, AllStand;
    CompressedParts(Join(a, ':'), Join(b, ':'));
  }

  lemma ConvertedFrom(hex: string -> Number, parts: seq<string>, va: seq<int>, vr: seq<int>)
    requires Numbers(hex, Front(parts), false) == Groups(va) && Numbers(hex, Rest(parts), true) == Groups(vr)
    ensures Converted(hex, parts) == Both(Groups(va), |vr|, Groups(vr))
  {
    NumbersLength(hex, Rest(parts), true);
    hide Numbers, Front, Rest, Zeros, Find, Both;
  }

  /** Where the first empty part lies. */
  lemma CompressedShape(a: seq<string>, b: seq<string>)
    requires "" !in a
    ensures Front(OrEmpty(a) + [""] + b) == a && Rest(OrEmpty(a) + [""] + b) == (if a == [] then [""] else []) + b
  {
    var parts := OrEmpty(a) + [""] + b;
    if a == [] {
      assert parts == [] + [""] + ([""] + b);
      FindAt([], "", [""] + b);
    } else {
      FindAt(a, "", b);
    }
  }

  lemma {:induction false} LeadingZero(hex: string -> Number, parts: seq<string>)
    requires Numbers(hex, parts, true).Groups?
    ensures Numbers(hex, [""] + parts, true) == Groups([0] + Numbers(hex, parts, true).g)
    decreases |parts|
  {
    if parts == [] {
      assert [""] + parts == [""] && [""][..0] == [];
      assert [0] + [] == [0] == [] + [0];
    } else {
      var n := |parts| - 1;
      LeadingZero(hex, parts[..n]);
      assert ([""] + parts)[..n + 1] == [""] + parts[..n];
    }
  }

  /** What the behind of the double colon gives: a trailing double colon leaves an empty part. */
  lemma BehindNumbers(hex: string -> Number, b: seq<string>, vb: seq<int>, leading: bool)
    requires AllStand(hex, b, vb)
    ensures Numbers(hex, (if leading then [""] else []) + OrEmpty(b), true) ==
      Groups((if leading then [0] else []) + (if b == [] then [0] else vb))
  {
    var tail := if b == [] then [""] else b;
    if b == [] {
      LeadingZero(hex, []);
      assert [""] + [] == [""] && [0] + [] == [0];
    } else {
      NumbersOfTexts(hex, b, vb, true);
    }
    if leading {
      LeadingZero(hex, tail);
    } else {
      assert [] + tail == tail;
    }
  }

  lemma {:induction false} ZerosAre(n: nat)
    ensures |Zeros(n)| == n && forall k :: 0 <= k < n ==> Zeros(n)[k] == 0
  {
    if n > 0 {
      ZerosAre(n - 1);
    }
  }

  lemma BothGroups(va: seq<int>, vr: seq<int>)
    ensures Both(Groups(va), |vr|, Groups(vr)) == Groups(Padded(va, |vr|) + vr)
  {
    hide Padded;
  }

  /** The zeros of the empty parts and those filled in. */
  lemma ZerosTogether(va: seq<int>, vb: seq<int>, zeros: nat, leading: bool, trailing: bool)
    requires 1 <= zeros && |va| + zeros + |vb| == 8 && (leading <==> va == []) && (trailing <==> vb == [])
    ensures var vr := (if leading then [0] else []) + (if trailing then [0] else vb);
      Padded(va, |vr|) + vr == va + Zeros(zeros) + vb
  {
    var vr := (if leading then [0] else []) + (if trailing then [0] else vb);
    ZerosAre(zeros);
    ZerosAre(8 - |vr| - |va|);
    hide Zeros;
    assert Zeros(8 - |vr| - |va|) + vr == Zeros(zeros) + vb;
    assert va + (Zeros(8 - |vr| - |va|) + vr) == va + Zeros(8 - |vr| - |va|) + vr;
    assert va + (Zeros(zeros) + vb) == va + Zeros(zeros) + vb;
  }

  /** Section 2.2 of RFC 4291: eight groups of which any run of zeros is written as a double
      colon are read back. */
  lemma CompressedAddress(hex: string -> Number, a: seq<string>, b: seq<string>, va: seq<int>, vb: seq<int>, zeros: nat)
    requires AllStand(hex, a, va) && AllStand(hex, b, vb) && 1 <= zeros && |va| + zeros + |vb| == 8
    ensures Converted(hex, Split(Join(a, ':') + "::" + Join(b, ':'), ':')) == Groups(va + Zeros(zeros) + vb)
  {
    var vr := (if a == [] then [0] else []) + (if b == [] then [0] else vb);
    hide *;
    CompressedTexts(hex, a, b, va, vb);
    NoEmpties(hex, a, va);
    CompressedShape(a, OrEmpty(b));
    NumbersOfTexts(hex, a, va, false);
    BehindNumbers(hex, b, vb, a == []);
    ConvertedFrom(hex, OrEmpty(a) + [""] + OrEmpty(b), va, vr);
    SameSize(hex, a, b, va, vb);
    ZerosTogether(va, vb, zeros, a == [], b == []);
    BothGroups(va, vr);
  }

  lemma SameSize(hex: string -> Number, a: seq<string>, b: seq<string>, va: seq<int>, vb: seq<int>)
    requires AllStand(hex, a, va) && AllStand(hex, b, vb)
    ensures (a == [] <==> va == []) && (b == [] <==> vb == [])
  {
  }

  /** Whatever is read as numbers gives eight of them exactly when no more parts than that are
      written besides the one that stands for the missing zeros. */
  lemma EightGroupsIff(hex: string -> Number, parts: seq<string>)
    requires Converted(hex, parts).Groups?
    ensures |Converted(hex, parts).g| == 8 <==> |Front(parts)| + |Rest(parts)| <= 8
  {
    NumbersLength(hex, Front(parts), false);
    NumbersLength(hex, Rest(parts), true);
    ZerosAre(if |Front(parts)| + |Rest(parts)| <= 8 then 8 - |Front(parts)| - |Rest(parts)| else 0);
  }

  lemma {:induction false} NumbersLength(hex: string -> Number, parts: seq<string>, empties: bool)
    requires Numbers(hex, parts, empties).Groups?
    ensures |Numbers(hex, parts, empties).g| == |parts|
    decreases |parts|
  {
    if parts != [] {
      NumbersLength(hex, parts[..|parts| - 1], empties);
    }
  }
}
