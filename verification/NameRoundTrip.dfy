/**
 What a written name reads back as.  The search of the compressor trusts a trial read that may
 have run into octets not yet written, or that dropped labels; the round trip holds exactly when
 the match it takes is settled.
 */
module NameRoundTrip {
  import opened Bytes
  import opened NameReader
  import opened NameWriter
  import opened Wire

  /** Labels a packet can carry. */
  predicate Plain(strings: seq<text>) {
    forall i :: 0 <= i < |strings| ==> 1 <= |strings[i]| <= 63 && NulFree(strings[i])
  }

  predicate Ascii(strings: seq<text>) {
    forall i :: 0 <= i < |strings| ==> SevenBit(strings[i])
  }

  /** The name spelled at `pos` of a segment that began at `seg` reads as `strings`, up to ASCII case. */
  predicate ReadsAs(mem: seq<byte>, seg: nat, pos: nat, strings: seq<text>)
    requires Buffer(mem) && seg <= pos
  {
    var e := Expand(mem, seg, pos, MAX);
    e.ok && CaseEqAll(strings, Labels(e.items))
  }

  /**
   A match the pointer may lead to: it starts before the name being written, its trial read looked
   at written octets only, and it took every label into account (none dropped as `_sub`, joined to
   the host, beyond the fourth, or cut at a NUL).
   */
  predicate Settled(mem: seq<byte>, loc: nat, seg: nat, index: nat, count: nat)
    requires Buffer(mem) && loc < MAX
  {
    var ls := Labels(Expand(mem, loc, loc, MAX).items);
    loc < seg && StaysBelow(mem, loc, loc, MAX, index)
    && |ls| == count && forall i :: 0 <= i < |ls| ==> NulFree(ls[i])
  }

  /** The match the writer takes for `strings`, if it takes one, is settled. */
  predicate TakesSettledMatch(mem: seq<byte>, seg: nat, index: nat, strings: seq<text>)
    requires Buffer(mem) && index <= MAX && Strings(strings)
    decreases |strings|
  {
    strings == [] ||
    var loc := FindMatch(mem, 0, index, strings);
    if loc == -1 then
      var head := AppendString(mem, index, strings[0]);
      TakesSettledMatch(head.mem, seg, head.index, strings[1..])
    else Settled(mem, loc, seg, index, |strings|)
  }

  // ---------------------------------------------------------------- slots against labels

  lemma PlaceSlots(v: NameValue, s: text)
    requires |s| > 0 && v.parts <= 4
    ensures var e := Enter(v); var w := Place(e, s);
            && v.parts <= w.parts <= v.parts + 1 && w.parts <= 4
            && (w.parts == v.parts + 1 ==>
                  (forall i :: 0 <= i < v.parts ==> Slot(w, i) == Slot(v, i)) && Slot(w, v.parts) == CStr(s))
  {
    var e := Enter(v);
    var w := Place(e, s);
    PlaceParts(e, s);
    forall i | 0 <= i < v.parts && w.parts == v.parts + 1 ensures Slot(w, i) == Slot(v, i) { PlaceSlotAt(e, s, i); }
  }

  lemma PlaceParts(e: NameValue, s: text)
    requires |s| > 0 && e.parts <= 4 && (e.parts == 4 ==> e.invalid)
    ensures var w := Place(e, s); e.parts <= w.parts <= e.parts + 1 && w.parts <= 4
    ensures var w := Place(e, s); w.parts == e.parts + 1 ==> Slot(w, e.parts) == CStr(s)
  {
    hide CStr, CaseEq, ExtendsHost, Concat;
    var w := Place(e, s);
    if w.parts == e.parts + 1 {
      assert e.parts == 0 ==> w == e.(host := CStr(s), parts := 1);
      assert e.parts == 1 ==> w == e.(service := CStr(s), parts := 2);
      assert e.parts == 2 ==> w == e.(proto := CStr(s), parts := 3);
      assert e.parts == 3 ==> w == e.(domain := CStr(s), parts := 4);
      hide Place;
    }
  }

  lemma PlaceSlotAt(e: NameValue, s: text, i: nat)
    requires |s| > 0 && e.parts <= 4 && (e.parts == 4 ==> e.invalid) && i < e.parts
    ensures Place(e, s).parts == e.parts + 1 ==> Slot(Place(e, s), i) == Slot(e, i)
  {
    hide CStr, CaseEq, ExtendsHost, Concat;
  }

  /** When no label was dropped, the slots are the labels, in order. */
  lemma {:induction false} SlotsAreLabels(v: NameValue, items: seq<Item>)
    requires ItemsOk(items) && v.parts <= 4
    ensures Fill(v, items).parts - v.parts <= |Labels(items)|
    ensures var r := Fill(v, items);
            r.parts - v.parts == |Labels(items)| ==>
              (forall i :: 0 <= i < v.parts ==> Slot(r, i) == Slot(v, i)) &&
              (forall i :: v.parts <= i < r.parts ==> Slot(r, i) == CStr(Labels(items)[i - v.parts]))
    decreases |items|
  {
    hide Place, Slot, CStr;
    if items != [] {
      LabelsTail(items, Labels(items));
      if items[0].Label? {
        PlaceSlots(v, items[0].octets);
        var w := Place(Enter(v), items[0].octets);
        SlotsAreLabels(w, items[1..]);
      } else {
        assert forall i :: 0 <= i < 4 ==> Slot(Enter(v), i) == Slot(v, i) by { EnterSlots(v); }
        SlotsAreLabels(Enter(v), items[1..]);
      }
    }
  }

  /** An accepted match spells the strings exactly when it took every label into account. */
  lemma AcceptedSpells(mem: seq<byte>, loc: nat, strings: seq<text>)
    requires Buffer(mem) && loc < MAX && strings != [] && Plain(strings) && Accepts(mem, loc, strings)
    ensures var ls := Labels(Expand(mem, loc, loc, MAX).items);
            CaseEqAll(strings, ls) <==>
              |ls| == |strings| && forall i :: 0 <= i < |ls| ==> NulFree(ls[i])
  {
    var e := Expand(mem, loc, loc, MAX);
    ExpandItemsOk(mem, loc, loc, MAX);
    var ls := Labels(e.items);
    SlotsAreLabels(EMPTY, e.items);
    var v := Fill(EMPTY, e.items);
    if |ls| == |strings| {
      forall i | 0 <= i < |ls| ensures CaseEq(strings[i], ls[i]) <==> NulFree(ls[i]) {
        assert CaseEq(strings[i], Slot(v, i)) && Slot(v, i) == CStr(ls[i]);
        if CaseEq(strings[i], ls[i]) { CaseEqNulFree(strings[i], ls[i]); }
      }
    }
  }

  // ---------------------------------------------------------------- a pointer into unwritten octets

  /** One step of a reading that succeeds. */
  lemma OkStep(mem: seq<byte>, seg: nat, pos: nat)
    requires MAX < |mem| && seg <= pos < MAX && mem[pos] != 0
    requires Expand(mem, seg, pos, MAX).ok
    ensures var e := Expand(mem, seg, pos, MAX);
            if mem[pos] < 0xC0 then
              var after := pos + 1 + mem[pos];
              && mem[pos] <= 63 && after <= MAX && Expand(mem, seg, after, MAX).ok
              && Labels(e.items) == [mem[pos + 1..after]] + Labels(Expand(mem, seg, after, MAX).items)
            else
              var target := PointerTarget(mem, pos);
              && target < seg && Expand(mem, target, target, MAX).ok
              && Labels(e.items) == Labels(Expand(mem, target, target, MAX).items)
  {
    var e := Expand(mem, seg, pos, MAX);
    if mem[pos] < 0xC0 {
      var after := pos + 1 + mem[pos];
      assert e.items[1..] == Expand(mem, seg, after, MAX).items;
    } else {
      var target := PointerTarget(mem, pos);
      assert e.items[1..] == Expand(mem, target, target, MAX).items;
    }
  }

  /** Where a reading that leaves the octets below `index` goes next. */
  lemma LeavesFurtherOn(mem: seq<byte>, seg: nat, pos: nat, index: nat)
    requires MAX < |mem| && seg <= pos < index < MAX && mem[index - 1] < 0xC0
    requires Expand(mem, seg, pos, MAX).ok && !StaysBelow(mem, seg, pos, MAX, index)
    ensures mem[pos] != 0
    ensures if mem[pos] < 0xC0 then
              mem[pos] <= 63 && pos + 1 + mem[pos] <= MAX &&
              (pos + 1 + mem[pos] > index || !StaysBelow(mem, seg, pos + 1 + mem[pos], MAX, index))
            else
              var target := PointerTarget(mem, pos);
              pos + 1 < index && target < seg && !StaysBelow(mem, target, target, MAX, index)
  {
    hide Expand;
    if mem[pos] != 0 { OkStep(mem, seg, pos); }
  }

  predicate HasHighOctet(items: seq<Item>) {
    exists i :: 0 <= i < |Labels(items)| && !SevenBit(Labels(items)[i])
  }

  lemma HighBehind(head: text, rest: seq<Item>, items: seq<Item>)
    requires Labels(items) == [head] + Labels(rest) && (HasHighOctet(rest) || !SevenBit(head))
    ensures HasHighOctet(items)
  {
    hide Labels, SevenBit;
    if !SevenBit(head) { assert !SevenBit(Labels(items)[0]); }
    else {
      var i :| 0 <= i < |Labels(rest)| && !SevenBit(Labels(rest)[i]);
      assert Labels(items)[i + 1] == Labels(rest)[i];
    }
  }

  /**
   A reading that reached the place where the pointer was then written meets the pointer itself:
   it either fails there, or has swallowed the pointer octet into a label.
   */
  lemma {:induction false} PointerInThePath(mem: seq<byte>, q: seq<byte>, seg: nat, pos: nat, loc: nat, index: nat)
    requires Buffer(mem) && Buffer(q) && seg <= pos <= index < MAX && seg <= loc
    requires AgreeBelow(mem, q, index) && (index > 0 ==> mem[index - 1] < 0xC0)
    requires q[index] >= 0xC0 && PointerTarget(q, index) == loc
    requires Expand(mem, seg, pos, MAX).ok && !StaysBelow(mem, seg, pos, MAX, index)
    ensures var e := Expand(q, seg, pos, MAX); e.ok ==> HasHighOctet(e.items)
    decreases seg, index - pos
  {
    hide Expand, StaysBelow, Labels, HasHighOctet;
    var e := Expand(q, seg, pos, MAX);
    if e.ok {
      if pos == index { OkStep(q, seg, pos); }
      else {
        LeavesFurtherOn(mem, seg, pos, index);
        OkStep(mem, seg, pos);
        OkStep(q, seg, pos);
        if mem[pos] < 0xC0 {
          var after := pos + 1 + mem[pos];
          if after > index { assert q[pos + 1..after][index - pos - 1] == q[index]; }
          else { PointerInThePath(mem, q, seg, after, loc, index); }
          HighBehind(q[pos + 1..after], Expand(q, seg, after, MAX).items, e.items);
        } else {
          var target := PointerTarget(mem, pos);
          PointerInThePath(mem, q, target, target, loc, index);
          SameHigh(Expand(q, target, target, MAX).items, e.items);
        }
      }
    }
  }

  lemma SameHigh(a: seq<Item>, b: seq<Item>)
    requires Labels(a) == Labels(b) && HasHighOctet(a)
    ensures HasHighOctet(b)
  {
  }

  lemma PointerWritten(mem: seq<byte>, index: nat, loc: nat)
    requires Buffer(mem) && index + 1 < MAX && loc < MAX
    ensures var w := AppendU16(mem, index, NAME_REF + loc);
            w.mem[index] >= 0xC0 && PointerTarget(w.mem, index) == loc && w.index == index + 2 &&
            AgreeBelow(mem, w.mem, index)
  {
    var high := (NAME_REF + loc) / 0x100;
    assert high == 0xC0 + loc / 0x100 && high % 0x40 == loc / 0x100 && (NAME_REF + loc) % 0x100 == loc % 0x100;
  }

  /** A name that is a pointer. */
  lemma JumpStep(mem: seq<byte>, seg: nat, pos: nat)
    requires MAX < |mem| && seg <= pos && pos + 1 < MAX && mem[pos] >= 0xC0
    ensures var e := Expand(mem, seg, pos, MAX); var target := PointerTarget(mem, pos);
            if target < seg then
              var t := Expand(mem, target, target, MAX);
              && e.ok == t.ok && e.next == pos + 2 && Labels(e.items) == Labels(t.items)
              && StaysBelow(mem, seg, pos, MAX, pos + 2) == StaysBelow(mem, target, target, MAX, pos + 2)
            else !e.ok
  {
    var e := Expand(mem, seg, pos, MAX);
    var target := PointerTarget(mem, pos);
    if target < seg { assert e.items[1..] == Expand(mem, target, target, MAX).items; }
  }

  /**
   The pointer step: behind a trial read of written octets, the name reads as wanted exactly when the
   match is settled.
   */
  lemma PointerReads(mem: seq<byte>, seg: nat, index: nat, strings: seq<text>, loc: nat)
    requires Buffer(mem) && seg <= index && index + 1 < MAX && strings != [] && Plain(strings)
    requires loc < index && Accepts(mem, loc, strings) && StaysBelow(mem, loc, loc, MAX, index)
    ensures var w := AppendU16(mem, index, NAME_REF + loc);
            && (ReadsAs(w.mem, seg, index, strings) <==> Settled(mem, loc, seg, index, |strings|))
            && (Settled(mem, loc, seg, index, |strings|) ==>
                  && Expand(w.mem, seg, index, MAX).next == w.index
                  && StaysBelow(w.mem, seg, index, MAX, w.index))
  {
    PointerWritten(mem, index, loc);
    hide AppendU16, PointerTarget, Accepts;
    var w := AppendU16(mem, index, NAME_REF + loc);
    JumpStep(w.mem, seg, index);
    hide Expand, Fill, StaysBelow, Labels;
    if loc < seg {
      ExpandFrame(mem, w.mem, loc, loc, MAX, index);
      AcceptedSpells(mem, loc, strings);
      Widen(w.mem, loc, loc, MAX, index, w.index);
    }
  }

  /** Behind a trial read that left the written octets an ASCII name does not read. */
  lemma PointerAstray(mem: seq<byte>, seg: nat, index: nat, strings: seq<text>, loc: nat)
    requires Buffer(mem) && seg <= index && index + 1 < MAX && strings != [] && Plain(strings) && Ascii(strings)
    requires index > 0 ==> mem[index - 1] < 0xC0
    requires loc < index && Accepts(mem, loc, strings) && !StaysBelow(mem, loc, loc, MAX, index)
    ensures !ReadsAs(AppendU16(mem, index, NAME_REF + loc).mem, seg, index, strings)
  {
    PointerWritten(mem, index, loc);
    hide AppendU16, PointerTarget, Accepts;
    var w := AppendU16(mem, index, NAME_REF + loc);
    JumpStep(w.mem, seg, index);
    hide Expand, Fill, StaysBelow, Labels;
    if loc < seg {
      var target := Expand(w.mem, loc, loc, MAX);
      AcceptedReads(mem, loc, strings);
      PointerInThePath(mem, w.mem, loc, loc, loc, index);
      if target.ok {
        var ls := Labels(target.items);
        var i :| 0 <= i < |ls| && !SevenBit(ls[i]);
        if CaseEqAll(strings, ls) { CaseEqSevenBit(strings[i], ls[i]); }
      }
    }
  }

  lemma PointerReadsOnly(mem: seq<byte>, seg: nat, index: nat, strings: seq<text>, loc: nat)
    requires Buffer(mem) && seg <= index && index + 1 < MAX && strings != [] && Plain(strings) && Ascii(strings)
    requires index > 0 ==> mem[index - 1] < 0xC0
    requires loc < index && Accepts(mem, loc, strings)
    ensures ReadsAs(AppendU16(mem, index, NAME_REF + loc).mem, seg, index, strings) ==>
              Settled(mem, loc, seg, index, |strings|)
  {
    hide Accepts, ReadsAs, Settled, AppendU16, StaysBelow;
    if StaysBelow(mem, loc, loc, MAX, index) { PointerReads(mem, seg, index, strings, loc); }
    else { PointerAstray(mem, seg, index, strings, loc); }
  }

  lemma AcceptedReads(mem: seq<byte>, loc: nat, strings: seq<text>)
    requires Buffer(mem) && loc < MAX && strings != [] && Accepts(mem, loc, strings)
    ensures Expand(mem, loc, loc, MAX).ok
  {
  }

  lemma {:induction false} Widen(mem: seq<byte>, seg: nat, pos: nat, limit: nat, bound: nat, wider: nat)
    requires limit < |mem| && seg <= pos && bound <= wider
    requires StaysBelow(mem, seg, pos, limit, bound)
    ensures StaysBelow(mem, seg, pos, limit, wider)
    decreases seg, |mem| - pos
  {
    if pos >= limit || mem[pos] == 0 {
    } else if mem[pos] < 0xC0 {
      if mem[pos] <= 63 && pos + 1 + mem[pos] <= limit {
        Widen(mem, seg, pos + 1 + mem[pos], limit, bound, wider);
      }
    } else if PointerTarget(mem, pos) < seg {
      Widen(mem, PointerTarget(mem, pos), PointerTarget(mem, pos), limit, bound, wider);
    }
  }

  // ---------------------------------------------------------------- the round trip

  /** One label of a name: it is written out, or the rest of the name becomes a pointer. */
  lemma WriterStep(mem: seq<byte>, seg: nat, index: nat, strings: seq<text>)
    requires Buffer(mem) && strings != [] && Plain(strings) && index + Size(strings) < MAX
    ensures var w := AppendFqdn(mem, index, strings); var loc := FindMatch(mem, 0, index, strings);
            if loc == -1 then
              var head := AppendString(mem, index, strings[0]); var t := AppendFqdn(head.mem, head.index, strings[1..]);
              && w.mem == t.mem && w.index == t.index && (t.whole ==> w.whole) && head.index == index + 1 + |strings[0]|
              && TakesSettledMatch(mem, seg, index, strings) ==
                 TakesSettledMatch(head.mem, seg, head.index, strings[1..])
            else
              var t := AppendU16(mem, index, NAME_REF + loc);
              && w.mem == t.mem && w.index == t.index && w.whole && index + 1 < MAX
              && TakesSettledMatch(mem, seg, index, strings) == Settled(mem, loc, seg, index, |strings|)
  {
    hide FindMatch, Settled, Accepts, Expand, StaysBelow;
    var loc := FindMatch(mem, 0, index, strings);
    if loc == -1 {
      var head := AppendString(mem, index, strings[0]);
      assert head.ret != 0;
    } else {
      assert index + 1 < MAX;
    }
  }

  /** What a settled match, or none, makes of the name written from `index` on. */
  predicate Returns(mem: seq<byte>, seg: nat, index: nat, strings: seq<text>)
    requires Buffer(mem) && seg <= index <= MAX && Strings(strings)
  {
    var w := AppendFqdn(mem, index, strings);
    && w.whole
    && (TakesSettledMatch(mem, seg, index, strings) ==>
          && ReadsAs(w.mem, seg, index, strings)
          && Expand(w.mem, seg, index, MAX).next == w.index
          && StaysBelow(w.mem, seg, index, MAX, w.index))
  }

  lemma LiteralReturns(mem: seq<byte>, seg: nat, index: nat, strings: seq<text>)
    requires Buffer(mem) && seg <= index && strings != [] && Plain(strings) && index + Size(strings) < MAX
    requires FindMatch(mem, 0, index, strings) == -1
    requires var head := AppendString(mem, index, strings[0]); Returns(head.mem, seg, head.index, strings[1..])
    ensures Returns(mem, seg, index, strings)
  {
    WriterStep(mem, seg, index, strings);
    var w, head := AppendFqdn(mem, index, strings), AppendString(mem, index, strings[0]);
    hide AppendFqdn, TakesSettledMatch, FindMatch, Expand, StaysBelow, ReadsAs;
    LiteralReads(head.mem, w.mem, seg, index, strings, w.index);
  }

  lemma PointerReturns(mem: seq<byte>, seg: nat, index: nat, strings: seq<text>)
    requires Buffer(mem) && seg <= index && strings != [] && Plain(strings) && index + Size(strings) < MAX
    requires FindMatch(mem, 0, index, strings) >= 0
    ensures Returns(mem, seg, index, strings)
  {
    WriterStep(mem, seg, index, strings);
    SettledStays(mem, seg, index, strings);
    var loc := FindMatch(mem, 0, index, strings);
    hide AppendFqdn, TakesSettledMatch, FindMatch, Expand, StaysBelow, ReadsAs, Settled, Accepts;
    if TakesSettledMatch(mem, seg, index, strings) { PointerReads(mem, seg, index, strings, loc); }
  }

  /** The part of a name written from `index` on: with a settled match it reads back, from written octets. */
  lemma {:induction false} SettledFrom(mem: seq<byte>, seg: nat, index: nat, strings: seq<text>)
    requires Buffer(mem) && seg <= index && Plain(strings) && index + Size(strings) < MAX
    ensures Returns(mem, seg, index, strings)
    decreases |strings|
  {
    if strings != [] {
      hide Returns, FindMatch, Accepts;
      if FindMatch(mem, 0, index, strings) == -1 {
        var head := AppendString(mem, index, strings[0]);
        SettledFrom(head.mem, seg, head.index, strings[1..]);
        LiteralReturns(mem, seg, index, strings);
      } else {
        PointerReturns(mem, seg, index, strings);
      }
    }
  }

  lemma SettledStays(mem: seq<byte>, seg: nat, index: nat, strings: seq<text>)
    requires Buffer(mem) && index <= MAX && strings != [] && Strings(strings)
    ensures var loc := FindMatch(mem, 0, index, strings);
            loc >= 0 && Settled(mem, loc, seg, index, |strings|) ==> StaysBelow(mem, loc, loc, MAX, index)
  {
  }

  /** What is written from `index` on reads back only with a settled match, or none. */
  predicate ReturnsOnly(mem: seq<byte>, seg: nat, index: nat, strings: seq<text>)
    requires Buffer(mem) && seg <= index <= MAX && Strings(strings)
  {
    ReadsAs(AppendFqdn(mem, index, strings).mem, seg, index, strings) ==> TakesSettledMatch(mem, seg, index, strings)
  }

  lemma LiteralReturnsOnly(mem: seq<byte>, seg: nat, index: nat, strings: seq<text>)
    requires Buffer(mem) && seg <= index && strings != [] && Plain(strings) && index + Size(strings) < MAX
    requires FindMatch(mem, 0, index, strings) == -1
    requires var head := AppendString(mem, index, strings[0]); ReturnsOnly(head.mem, seg, head.index, strings[1..])
    ensures ReturnsOnly(mem, seg, index, strings)
  {
    WriterStep(mem, seg, index, strings);
    var w, head := AppendFqdn(mem, index, strings), AppendString(mem, index, strings[0]);
    hide AppendFqdn, TakesSettledMatch, FindMatch, Expand, StaysBelow, ReadsAs;
    LiteralReads(head.mem, w.mem, seg, index, strings, w.index);
  }

  lemma PointerReturnsOnly(mem: seq<byte>, seg: nat, index: nat, strings: seq<text>)
    requires Buffer(mem) && seg <= index && strings != [] && Plain(strings) && Ascii(strings)
    requires index + Size(strings) < MAX && (index > 0 ==> mem[index - 1] < 0xC0)
    requires FindMatch(mem, 0, index, strings) >= 0
    ensures ReturnsOnly(mem, seg, index, strings)
  {
    WriterStep(mem, seg, index, strings);
    hide AppendFqdn, TakesSettledMatch, FindMatch, Expand, StaysBelow, ReadsAs, Settled, Accepts;
    PointerReadsOnly(mem, seg, index, strings, FindMatch(mem, 0, index, strings));
  }

  /** An ASCII name that reads back took a settled match, if any. */
  lemma {:induction false} ReadFrom(mem: seq<byte>, seg: nat, index: nat, strings: seq<text>)
    requires Buffer(mem) && seg <= index && Plain(strings) && Ascii(strings) && index + Size(strings) < MAX
    requires index > 0 ==> mem[index - 1] < 0xC0
    ensures ReturnsOnly(mem, seg, index, strings)
    decreases |strings|
  {
    if strings != [] {
      hide ReturnsOnly, FindMatch, Accepts;
      if FindMatch(mem, 0, index, strings) == -1 {
        var head := AppendString(mem, index, strings[0]);
        assert head.mem[head.index - 1] == strings[0][|strings[0]| - 1];
        ReadFrom(head.mem, seg, head.index, strings[1..]);
        LiteralReturnsOnly(mem, seg, index, strings);
      } else {
        PointerReturnsOnly(mem, seg, index, strings);
      }
    }
  }

  /** A literal label in front of a name reads as itself. */
  lemma LiteralReads(headed: seq<byte>, mem: seq<byte>, seg: nat, index: nat, strings: seq<text>, end: nat)
    requires Buffer(headed) && Buffer(mem) && seg <= index && strings != [] && Plain(strings)
    requires var after := index + 1 + |strings[0]|;
             && after < MAX && after <= end && AgreeBelow(headed, mem, after)
             && headed[index] == |strings[0]| && headed[index + 1..after] == strings[0]
    ensures var after := index + 1 + |strings[0]|;
            && (ReadsAs(mem, seg, index, strings) <==> ReadsAs(mem, seg, after, strings[1..]))
            && Expand(mem, seg, index, MAX).next == Expand(mem, seg, after, MAX).next
            && (StaysBelow(mem, seg, index, MAX, end) <==> StaysBelow(mem, seg, after, MAX, end))
  {
    var after := index + 1 + |strings[0]|;
    assert mem[index + 1..after] == headed[index + 1..after];
    var e := Expand(mem, seg, index, MAX);
    var rest := Expand(mem, seg, after, MAX);
    assert e.items == [Label(strings[0])] + rest.items && e.items[1..] == rest.items;
    var ls := Labels(rest.items);
    assert Labels(e.items) == [strings[0]] + ls;
    assert strings == [strings[0]] + strings[1..];
    if CaseEqAll(strings, Labels(e.items)) {
      forall i | 0 <= i < |ls| ensures CaseEq(strings[1..][i], ls[i]) {
        assert CaseEq(strings[i + 1], Labels(e.items)[i + 1]);
      }
    }
    if CaseEqAll(strings[1..], ls) {
      forall i | 0 <= i < |strings| ensures CaseEq(strings[i], Labels(e.items)[i]) {
        if i > 0 { assert CaseEq(strings[1..][i - 1], ls[i - 1]); }
      }
    }
  }

  /**
   The round trip of name compression.  A name of labels of 1 to 63 octets, appended where it fits
   even uncompressed, is written completely.  If the match the writer took, if any, is settled, then
   read from where it was written it gives the same labels up to ASCII case, it ends where the writer
   stopped, and it reads the same whatever is appended later.
   */
  lemma CompressionRoundTrip(mem: seq<byte>, index: nat, strings: seq<text>)
    requires Buffer(mem) && Plain(strings) && index + Size(strings) < MAX
    ensures var w := AppendFqdn(mem, index, strings);
            && w.whole
            && (TakesSettledMatch(mem, index, index, strings) ==>
                  && ReadsAs(w.mem, index, index, strings)
                  && Expand(w.mem, index, index, MAX).next == w.index
                  && (forall later: seq<byte> :: Buffer(later) && AgreeBelow(w.mem, later, w.index) ==>
                        Expand(later, index, index, MAX) == Expand(w.mem, index, index, MAX)))
  {
    SettledFrom(mem, index, index, strings);
    var w := AppendFqdn(mem, index, strings);
    if TakesSettledMatch(mem, index, index, strings) {
      forall later: seq<byte> | Buffer(later) && AgreeBelow(w.mem, later, w.index)
        ensures Expand(later, index, index, MAX) == Expand(w.mem, index, index, MAX)
      {
        ExpandFrame(w.mem, later, index, index, MAX, w.index);
      }
    }
  }

  /**
   For ASCII labels behind an octet that is no pointer tag nothing else reads back: the name written
   gives the same labels if and only if the match taken, if any, is settled.
   */
  lemma CompressionIsExact(mem: seq<byte>, index: nat, strings: seq<text>)
    requires Buffer(mem) && Plain(strings) && Ascii(strings) && index + Size(strings) < MAX
    requires index > 0 ==> mem[index - 1] < 0xC0
    ensures ReadsAs(AppendFqdn(mem, index, strings).mem, index, index, strings) ==
            TakesSettledMatch(mem, index, index, strings)
  {
    SettledFrom(mem, index, index, strings);
    ReadFrom(mem, index, index, strings);
  }

  /** Appending leaves every name that lies in the written part as it was. */
  lemma EarlierNamesKept(mem: seq<byte>, index: nat, strings: seq<text>, at: nat)
    requires Buffer(mem) && index <= MAX && Strings(strings)
    requires StaysBelow(mem, at, at, MAX, index)
    ensures var w := AppendFqdn(mem, index, strings);
            && StaysBelow(w.mem, at, at, MAX, index)
            && Expand(w.mem, at, at, MAX) == Expand(mem, at, at, MAX)
  {
    ExpandFrame(mem, AppendFqdn(mem, index, strings).mem, at, at, MAX, index);
  }

  // ---------------------------------------------------------------- where the round trip fails

  /** The label "local" in front of a zero octet, read on from offset `pos`. */
  lemma LocalReads(mem: seq<byte>, seg: nat, pos: nat)
    requires Buffer(mem) && seg <= pos && pos + 6 < MAX
    requires mem[pos] == 5 && mem[pos + 1..pos + 6] == LOCAL && mem[pos + 6] == 0
    ensures Expand(mem, seg, pos, MAX) == Expansion([Label(LOCAL)], true, pos + 7)
  {
    assert Expand(mem, seg, pos + 6, MAX) == Expansion([], true, pos + 7);
  }

  lemma PlainWithLocal()
    ensures Plain([LOCAL, LOCAL]) && Ascii([LOCAL, LOCAL]) && Size([LOCAL, LOCAL]) == 12
  {
    assert SevenBit(LOCAL) && NulFree(LOCAL);
    assert [LOCAL, LOCAL][1..] == [LOCAL] && [LOCAL][1..] == [];
    assert Size([LOCAL]) == 6;
  }

  lemma PlaceLocal(v: NameValue)
    requires v.parts < 4 && !v.invalid
    ensures Place(v, LOCAL) == if v.parts == 0 then v.(host := LOCAL, parts := 1)
                               else if v.parts == 1 then v.(service := LOCAL, parts := 2)
                               else if v.parts == 2 then v.(proto := LOCAL, parts := 3)
                               else v.(domain := LOCAL, parts := 4)
  {
    assert CStr(LOCAL) == LOCAL && CaseEq(LOCAL, LOCAL) && !CaseEq(LOCAL, SUB);
  }

  lemma LocalAccepted(mem: seq<byte>, loc: nat)
    requires Buffer(mem) && loc + 6 < MAX
    requires mem[loc] == 5 && mem[loc + 1..loc + 6] == LOCAL && mem[loc + 6] == 0
    ensures Accepts(mem, loc, [LOCAL])
  {
    LocalReads(mem, loc, loc);
    hide Expand, Fill;
    var strings: seq<text> := [LOCAL];
    var items: seq<Item> := [Label(LOCAL)];
    LocalFills(items);
    assert mem[loc] == |strings[0]| % 0x100 && mem[loc + 1..loc + 1 + |strings[0]|] == strings[0];
    assert CaseEq(strings[0], Slot(Fill(EMPTY, items), 0));
  }

  lemma LocalFills(items: seq<Item>)
    requires |items| == 1 && items[0] == Label(LOCAL)
    ensures ItemsOk(items) && Fill(EMPTY, items) == EMPTY.(host := LOCAL, parts := 1)
  {
    PlaceLocal(EMPTY);
    hide Place;
    assert items[1..] == [];
  }

  /**
   A host called "local" in a packet that starts from a zeroed buffer: the second label is matched
   with the first one, which ends at a zero octet not yet written, and the name points at itself.
   */
  lemma HostCalledLocal(mem: seq<byte>)
    requires Buffer(mem) && (forall i :: 0 <= i < 12 ==> mem[i] == 0) && mem[18] == 0
    ensures var w := AppendFqdn(mem, 12, [LOCAL, LOCAL]);
            w.whole && !ReadsAs(w.mem, 12, 12, [LOCAL, LOCAL])
  {
    LocalMatchesItself(mem);
    PlainWithLocal();
    hide Expand, Fill, AppendFqdn, ReadsAs, TakesSettledMatch;
    CompressionRoundTrip(mem, 12, [LOCAL, LOCAL]);
    CompressionIsExact(mem, 12, [LOCAL, LOCAL]);
  }

  lemma NotAccepted(mem: seq<byte>, loc: nat, strings: seq<text>)
    requires Buffer(mem) && strings != [] && loc < MAX && mem[loc] != |strings[0]| % 0x100
    ensures !Accepts(mem, loc, strings)
  {
  }

  lemma LocalMatchesItself(mem: seq<byte>)
    requires Buffer(mem) && (forall i :: 0 <= i < 12 ==> mem[i] == 0) && mem[18] == 0
    ensures !TakesSettledMatch(mem, 12, 12, [LOCAL, LOCAL])
  {
    hide Expand, Fill, Accepts, FindMatch;
    var strings := [LOCAL, LOCAL];
    var head := AppendString(mem, 12, LOCAL);
    assert strings[1..] == [LOCAL] && |LOCAL| == 5 && head.index == 18;
    forall i | 0 <= i < 12 ensures !Accepts(mem, i, strings) && !Accepts(head.mem, i, [LOCAL]) {
      NotAccepted(mem, i, strings);
      NotAccepted(head.mem, i, [LOCAL]);
    }
    LocalAccepted(head.mem, 12);
    assert FindMatch(head.mem, 0, 18, [LOCAL]) == 12;
    assert !TakesSettledMatch(head.mem, 12, 18, [LOCAL]);
  }

  /** Labels whose length octet is no pointer tag. */
  predicate Writable(strings: seq<text>) {
    forall i :: 0 <= i < |strings| ==> 1 <= |strings[i]| < 0xC0 && NulFree(strings[i])
  }

  /** Every slot but the first holds a single label, or what it held. */
  lemma {:induction false} SlotsAreShort(v: NameValue, items: seq<Item>, i: nat)
    requires ItemsOk(items) && v.parts <= 4 && 1 <= i < 4 && |Slot(v, i)| <= 63
    ensures |Slot(Fill(v, items), i)| <= 63
    decreases |items|
  {
    hide Slot, Place, Fill;
    FillItem(v, items);
    if items != [] {
      EnterSlots(v);
      LabelsTail(items, Labels(items));
      if items[0].Label? {
        PlacedIsShort(Enter(v), items[0].octets, i);
        SlotsAreShort(Place(Enter(v), items[0].octets), items[1..], i);
      } else {
        SlotsAreShort(Enter(v), items[1..], i);
      }
    }
  }

  lemma PlacedIsShort(v: NameValue, s: text, i: nat)
    requires 0 < |s| <= 63 && v.parts <= 4 && (v.parts == 4 ==> v.invalid) && 1 <= i < 4 && |Slot(v, i)| <= 63
    ensures |Slot(Place(v, s), i)| <= 63
  {
    hide CaseEq, Concat;
  }

  /** No name with a label above 63 octets is matched: none in front is readable, and no slot holds it. */
  lemma MatchIsShort(mem: seq<byte>, loc: nat, strings: seq<text>, k: nat)
    requires Buffer(mem) && loc < MAX && k < |strings| && Writable(strings) && Accepts(mem, loc, strings)
    ensures |strings[k]| <= 63
  {
    if k > 0 {
      ExpandItemsOk(mem, loc, loc, MAX);
      var items := Expand(mem, loc, loc, MAX).items;
      hide Fill, Expand;
      assert CaseEq(strings[k], Slot(Fill(EMPTY, items), k));
      SlotsAreShort(EMPTY, items, k);
    }
  }

  /**
   A label of 64 octets, the longest host, instance or service name the interface admits, is written
   with a length octet no reader accepts, wherever it stands in the name.
   */
  lemma {:induction false} LongLabelUnreadable(mem: seq<byte>, seg: nat, index: nat, strings: seq<text>, k: nat)
    requires Buffer(mem) && seg <= index && Writable(strings) && index + Size(strings) < MAX
    requires k < |strings| && |strings[k]| >= 64
    ensures !Expand(AppendFqdn(mem, index, strings).mem, seg, index, MAX).ok
    decreases k
  {
    hide FindMatch, Accepts, Expand;
    var loc := FindMatch(mem, 0, index, strings);
    if loc >= 0 { MatchIsShort(mem, loc, strings, k); }
    var head := AppendString(mem, index, strings[0]);
    assert head.index == index + 1 + |strings[0]| && head.mem[index] == |strings[0]|;
    var w := AppendFqdn(mem, index, strings);
    assert w.mem == AppendFqdn(head.mem, head.index, strings[1..]).mem;
    if k > 0 { LongLabelUnreadable(head.mem, seg, head.index, strings[1..], k - 1); }
    hide AppendFqdn, AppendString;
    LabelOrNothing(w.mem, seg, index);
  }

  /** A literal label is read only if it has at most 63 octets and the rest is read. */
  lemma LabelOrNothing(mem: seq<byte>, seg: nat, pos: nat)
    requires Buffer(mem) && seg <= pos < MAX && 0 < mem[pos] < 0xC0
    ensures Expand(mem, seg, pos, MAX).ok ==>
              mem[pos] <= 63 && pos + 1 + mem[pos] <= MAX && Expand(mem, seg, pos + 1 + mem[pos], MAX).ok
  {
  }

  /** With a settled match, or none, a name reads back exactly when each of its labels has at most 63 octets. */
  lemma LabelLengthIsExact(mem: seq<byte>, index: nat, strings: seq<text>)
    requires Buffer(mem) && Writable(strings) && index + Size(strings) < MAX
    requires TakesSettledMatch(mem, index, index, strings)
    ensures ReadsAs(AppendFqdn(mem, index, strings).mem, index, index, strings) == Plain(strings)
  {
    hide Expand, AppendFqdn, TakesSettledMatch;
    if Plain(strings) { CompressionRoundTrip(mem, index, strings); }
    else {
      var k :| 0 <= k < |strings| && |strings[k]| > 63;
      LongLabelUnreadable(mem, index, index, strings, k);
    }
  }

  const P: text := [0x70]
  const HTTP: text := [0x5F, 0x68, 0x74, 0x74, 0x70]
  const TCP: text := [0x5F, 0x74, 0x63, 0x70]

  /** The name `p._sub._http._tcp.local` stands at offset 12, written out. */
  predicate HoldsSubtype(mem: seq<byte>)
    requires Buffer(mem)
  {
    && mem[12] == 1 && mem[13..14] == P && mem[14] == 4 && mem[15..19] == SUB && mem[19] == 5 && mem[20..25] == HTTP
    && mem[25] == 4 && mem[26..30] == TCP && mem[30] == 5 && mem[31..36] == LOCAL && mem[36] == 0
  }

  /** An authoritative response that is begun: no identity, no counts yet. */
  predicate Begun(mem: seq<byte>)
    requires Buffer(mem)
  {
    mem[..12] == [0, 0, 0x84, 0, 0, 0, 0, 0, 0, 0, 0, 0]
  }

  /**
   The record that takes back subtype `p` of a service instance called "p": behind the owner
   `p._sub._http._tcp.local` and ten octets of fixed fields the instance name `p._http._tcp.local`
   becomes a pointer to the owner, and reads as the name of the subtype.
   */
  lemma SubtypeTakenForInstance(mem: seq<byte>)
    requires Buffer(mem) && Begun(mem) && HoldsSubtype(mem) && mem[46] < 0xC0
    ensures var w := AppendFqdn(mem, 47, [P, HTTP, TCP, LOCAL]);
            w.whole && !ReadsAs(w.mem, 47, 47, [P, HTTP, TCP, LOCAL])
  {
    SubtypeMatches(mem);
    InstanceIsPlain();
    hide Expand, Fill, AppendFqdn, ReadsAs, TakesSettledMatch;
    CompressionRoundTrip(mem, 47, [P, HTTP, TCP, LOCAL]);
    CompressionIsExact(mem, 47, [P, HTTP, TCP, LOCAL]);
  }

  lemma InstanceIsPlain()
    ensures var s := [P, HTTP, TCP, LOCAL]; Plain(s) && Ascii(s) && Size(s) == 19
  {
    var s := [P, HTTP, TCP, LOCAL];
    assert NulFree(P) && NulFree(HTTP) && NulFree(TCP) && NulFree(LOCAL);
    assert SevenBit(P) && SevenBit(HTTP) && SevenBit(TCP) && SevenBit(LOCAL);
    hide NulFree, SevenBit;
    SizeStep(s);
    SizeStep(s[1..]);
    SizeStep(s[2..]);
    SizeStep(s[3..]);
    hide Size;
    assert s[1..][1..] == s[2..] && s[2..][1..] == s[3..] && |s[3..]| == 1;
  }

  lemma SizeStep(strings: seq<text>)
    requires strings != []
    ensures Size(strings) == 1 + |strings[0]| + Size(strings[1..])
    ensures |strings| == 1 ==> Size(strings) == 1 + |strings[0]|
  {
  }

  lemma SubtypeMatches(mem: seq<byte>)
    requires Buffer(mem) && Begun(mem) && HoldsSubtype(mem)
    ensures !TakesSettledMatch(mem, 47, 47, [P, HTTP, TCP, LOCAL])
  {
    hide Fill, Expand, FindMatch;
    var strings := [P, HTTP, TCP, LOCAL];
    forall i | 0 <= i < 12 ensures !Accepts(mem, i, strings) {
      assert mem[i] == mem[..12][i];
      NotAccepted(mem, i, strings);
    }
    SubtypeReads(mem);
    var e := Expand(mem, 12, 12, MAX);
    SubtypeFills(e.items);
    AllLabels(e.items);
    assert CaseEq(P, P) && CaseEq(HTTP, HTTP) && CaseEq(TCP, TCP) && CaseEq(LOCAL, LOCAL);
    assert Accepts(mem, 12, strings);
    assert FindMatch(mem, 0, 47, strings) == 12;
  }

  /** One label of a name, read. */
  lemma LabelStep(mem: seq<byte>, seg: nat, pos: nat, s: text)
    requires Buffer(mem) && seg <= pos && 0 < |s| <= 63 && pos + 1 + |s| <= MAX
    requires mem[pos] == |s| && mem[pos + 1..pos + 1 + |s|] == s
    ensures var e, rest := Expand(mem, seg, pos, MAX), Expand(mem, seg, pos + 1 + |s|, MAX);
            e.items == [Label(s)] + rest.items && e.ok == rest.ok
  {
  }

  lemma SubtypeReads(mem: seq<byte>)
    requires Buffer(mem) && HoldsSubtype(mem)
    ensures Expand(mem, 12, 12, MAX).ok && SubtypeItems(Expand(mem, 12, 12, MAX).items)
  {
    LocalReads(mem, 12, 30);
    hide Expand;
    LabelStep(mem, 12, 25, TCP);
    LabelStep(mem, 12, 19, HTTP);
    LabelStep(mem, 12, 14, SUB);
    LabelStep(mem, 12, 12, P);
  }

  predicate SubtypeItems(items: seq<Item>) {
    && |items| == 5 && items[0] == Label(P) && items[1] == Label(SUB)
    && items[2] == Label(HTTP) && items[3] == Label(TCP) && items[4] == Label(LOCAL)
  }

  lemma PlaceWords(v: NameValue)
    requires !v.invalid
    ensures v.parts == 0 ==> Place(v, P) == v.(host := P, parts := 1)
    ensures v.parts == 1 ==> Place(v, SUB) == v.(sub := true)
    ensures v.parts == 1 ==> Place(v, HTTP) == v.(service := HTTP, parts := 2)
    ensures v.parts == 2 ==> Place(v, TCP) == v.(proto := TCP, parts := 3)
  {
    WordsApart();
    hide CStr, CaseEq, Concat;
  }

  lemma WordsApart()
    ensures CStr(P) == P && CStr(SUB) == SUB && CStr(HTTP) == HTTP && CStr(TCP) == TCP
    ensures CaseEq(SUB, SUB) && !CaseEq(P, SUB) && !CaseEq(HTTP, SUB) && !CaseEq(TCP, SUB)
  {
    hide CStr;
    assert Lower(TCP[1]) != Lower(SUB[1]);
  }

  lemma InstanceFills(v: NameValue, items: seq<Item>)
    requires v.parts == 1 && !v.invalid && ItemsOk(items)
    requires |items| == 3 && items[0] == Label(HTTP) && items[1] == Label(TCP) && items[2] == Label(LOCAL)
    ensures Fill(v, items) == v.(service := HTTP, proto := TCP, domain := LOCAL, parts := 4)
  {
    hide Place, Fill;
    var w := v.(service := HTTP, parts := 2);
    var x := w.(proto := TCP, parts := 3);
    PlaceWords(v);
    PlaceWords(w);
    PlaceLocal(x);
    FillStep(v, items);
    FillStep(w, items[1..]);
    FillStep(x, items[1..][1..]);
  }

  /** A `_sub` label leaves no slot behind, so the other four look like an instance name. */
  lemma SubtypeFills(items: seq<Item>)
    requires SubtypeItems(items)
    ensures ItemsOk(items)
    ensures Fill(EMPTY, items) == NameValue(P, HTTP, TCP, LOCAL, 4, true, false)
  {
    hide Place, Fill;
    var v := EMPTY.(host := P, parts := 1);
    PlaceWords(EMPTY);
    PlaceWords(v);
    FillStep(EMPTY, items);
    FillStep(v, items[1..]);
    InstanceFills(v.(sub := true), items[1..][1..]);
  }

  lemma FillStep(v: NameValue, items: seq<Item>)
    requires items != [] && ItemsOk(items) && items[0].Label? && v.parts < 4 && !v.invalid
    ensures Place(v, items[0].octets).parts <= 4
    ensures Fill(v, items) == Fill(Place(v, items[0].octets), items[1..])
    ensures items[1..] == [] ==> Fill(v, items) == Place(v, items[0].octets)
  {
  }

  lemma {:induction false} AllLabels(items: seq<Item>)
    requires forall i :: 0 <= i < |items| ==> items[i].Label?
    ensures |Labels(items)| == |items|
  {
    if items != [] {
      AllLabels(items[1..]);
      LabelsTail(items, Labels(items));
    }
  }
}
