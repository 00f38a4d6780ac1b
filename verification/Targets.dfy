/**
 The names inside the data of records, read back from the packet that is sent. Such a name is written
 while the length field in front of it is still zero, and may become a pointer to a match; the length is
 filled in afterwards, which no reading of the name notices.
 */
module Targets {
  import opened Bytes
  import opened Lists
  import opened Wire
  import opened NameWriter
  import opened Framing
  import opened Records
  import opened RoundTrip = NameRoundTrip
  import opened ReadBack
  import NameReader

  // ---------------------------------------------------------------- readings without two octets

  /** The reading visits neither octet of the field at `f`. */
  predicate Skips(mem: seq<byte>, seg: nat, pos: nat, f: nat)
    requires Buffer(mem) && seg <= pos
    decreases seg, |mem| - pos
  {
    pos != f && pos != f + 1 &&
    if pos >= MAX || mem[pos] == 0 then true
    else if mem[pos] < 0xC0 then
      var len := mem[pos];
      len <= 63 && pos + 1 + len <= MAX ==>
        (pos + 1 + len <= f || f + 2 <= pos) && Skips(mem, seg, pos + 1 + len, f)
    else
      var target := NameReader.PointerTarget(mem, pos);
      pos + 1 != f && (target < seg ==> Skips(mem, target, target, f))
  }

  ghost predicate AgreeBut(a: seq<byte>, b: seq<byte>, low: nat, high: nat, f: nat) {
    |a| == |b| && forall i :: low <= i < high && i < |a| && i != f && i != f + 1 ==> a[i] == b[i]
  }

  /** Such a reading between the header and `bound` depends on nothing else. */
  lemma {:induction false} ExpandBut(a: seq<byte>, b: seq<byte>, seg: nat, pos: nat, bound: nat, f: nat)
    requires Buffer(a) && Buffer(b) && seg <= pos && AgreeBut(a, b, HEAD_LEN, bound, f)
    requires StaysAbove(a, seg, pos) && NameReader.StaysBelow(a, seg, pos, MAX, bound) && Skips(a, seg, pos, f)
    ensures NameReader.Expand(b, seg, pos, MAX) == NameReader.Expand(a, seg, pos, MAX)
    decreases seg, |a| - pos
  {
    StartsAlike(a, b, seg, pos, bound, f);
    hide StaysAbove, NameReader.StaysBelow, Skips, NameReader.Expand, NameReader.PointerTarget, AgreeBut;
    if pos >= MAX || a[pos] == 0 || (63 < a[pos] < 0xC0) {
      StopsAlike(a, b, seg, pos);
    } else if a[pos] < 0xC0 {
      if pos + 1 + a[pos] <= MAX { ExpandBut(a, b, seg, pos + 1 + a[pos], bound, f); }
      LabelAlike(a, b, seg, pos);
    } else {
      var target := NameReader.PointerTarget(a, pos);
      if target < seg { ExpandBut(a, b, target, target, bound, f); }
      JumpAlike(a, b, seg, pos);
    }
  }

  /** The first step of the reading, and that what is left of it is of the same sort. */
  lemma StartsAlike(a: seq<byte>, b: seq<byte>, seg: nat, pos: nat, bound: nat, f: nat)
    requires Buffer(a) && Buffer(b) && seg <= pos && AgreeBut(a, b, HEAD_LEN, bound, f)
    requires StaysAbove(a, seg, pos) && NameReader.StaysBelow(a, seg, pos, MAX, bound) && Skips(a, seg, pos, f)
    ensures pos < MAX ==> b[pos] == a[pos]
    ensures pos < MAX && 0 < a[pos] <= 63 && pos + 1 + a[pos] <= MAX ==>
              var next := pos + 1 + a[pos];
              && StaysAbove(a, seg, next) && NameReader.StaysBelow(a, seg, next, MAX, bound) && Skips(a, seg, next, f)
              && b[pos + 1..next] == a[pos + 1..next]
    ensures pos < MAX && a[pos] >= 0xC0 ==>
              var target := NameReader.PointerTarget(a, pos);
              && NameReader.PointerTarget(b, pos) == target
              && (target < seg ==> && StaysAbove(a, target, target) && Skips(a, target, target, f)
                                   && NameReader.StaysBelow(a, target, target, MAX, bound))
  {
    if pos < MAX && 0 < a[pos] <= 63 && pos + 1 + a[pos] <= MAX { SameSlice(a, b, pos + 1, pos + 1 + a[pos]); }
  }

  lemma StopsAlike(a: seq<byte>, b: seq<byte>, seg: nat, pos: nat)
    requires Buffer(a) && Buffer(b) && seg <= pos && (pos < MAX ==> b[pos] == a[pos])
    requires pos >= MAX || a[pos] == 0 || 63 < a[pos] < 0xC0
    ensures NameReader.Expand(b, seg, pos, MAX) == NameReader.Expand(a, seg, pos, MAX)
  {
  }

  lemma LabelAlike(a: seq<byte>, b: seq<byte>, seg: nat, pos: nat)
    requires Buffer(a) && Buffer(b) && seg <= pos < MAX && b[pos] == a[pos] && 0 < a[pos] <= 63
    requires pos + 1 + a[pos] <= MAX ==>
               var next := pos + 1 + a[pos];
               b[pos + 1..next] == a[pos + 1..next]
               && NameReader.Expand(b, seg, next, MAX) == NameReader.Expand(a, seg, next, MAX)
    ensures NameReader.Expand(b, seg, pos, MAX) == NameReader.Expand(a, seg, pos, MAX)
  {
  }

  lemma JumpAlike(a: seq<byte>, b: seq<byte>, seg: nat, pos: nat)
    requires Buffer(a) && Buffer(b) && seg <= pos < MAX && b[pos] == a[pos] && a[pos] >= 0xC0
    requires var target := NameReader.PointerTarget(a, pos);
             && NameReader.PointerTarget(b, pos) == target
             && (target < seg ==>
                   NameReader.Expand(b, target, target, MAX) == NameReader.Expand(a, target, target, MAX))
    ensures NameReader.Expand(b, seg, pos, MAX) == NameReader.Expand(a, seg, pos, MAX)
  {
    hide NameReader.PointerTarget;
  }

  lemma SameSlice(a: seq<byte>, b: seq<byte>, low: nat, high: nat)
    requires low <= high <= |a| == |b| && forall i :: low <= i < high ==> a[i] == b[i]
    ensures a[low..high] == b[low..high]
  {
  }

  lemma {:induction false} SameSkips(a: seq<byte>, b: seq<byte>, seg: nat, pos: nat, bound: nat, f: nat)
    requires Buffer(a) && Buffer(b) && seg <= pos && AgreeBelow(a, b, bound)
    requires NameReader.StaysBelow(a, seg, pos, MAX, bound)
    ensures Skips(a, seg, pos, f) == Skips(b, seg, pos, f)
    decreases seg, |a| - pos
  {
    if pos >= MAX || a[pos] == 0 {
    } else if a[pos] < 0xC0 {
      var len := a[pos];
      if len <= 63 && pos + 1 + len <= MAX { SameSkips(a, b, seg, pos + 1 + len, bound, f); }
    } else {
      var target := NameReader.PointerTarget(a, pos);
      assert NameReader.PointerTarget(b, pos) == target;
      if target < seg { SameSkips(a, b, target, target, bound, f); }
    }
  }

  // ---------------------------------------------------------------- the fixed fields of a record

  /** The fixed fields of a PTR or SRV record behind its owner name, its length not filled in yet. */
  predicate FieldsAt(mem: seq<byte>, n: nat) {
    && Buffer(mem) && n + 10 <= MAX
    && mem[n] == 0 && (mem[n + 1] == 12 || mem[n + 1] == 33) && (mem[n + 2] == 0 || mem[n + 2] == 0x80)
    && mem[n + 3] == 1 && mem[n + 4] == 0 && mem[n + 5] == 0
    && ((mem[n + 6] == 0 && (mem[n + 7] == 0 || mem[n + 7] == 120)) || (mem[n + 6] == 0x11 && mem[n + 7] == 0x94))
    && mem[n + 8] == 0 && mem[n + 9] == 0
  }

  /** A reading that succeeds and meets no NUL inside a label. */
  predicate Clean(mem: seq<byte>, seg: nat, pos: nat)
    requires Buffer(mem) && seg <= pos
  {
    var e := NameReader.Expand(mem, seg, pos, MAX);
    e.ok && AllNulFree(NameReader.Labels(e.items))
  }

  predicate AllNulFree(ls: seq<text>) {
    forall i :: 0 <= i < |ls| ==> NulFree(ls[i])
  }

  lemma CleanLabel(mem: seq<byte>, seg: nat, pos: nat)
    requires Buffer(mem) && seg <= pos < MAX && 0 < mem[pos] < 0xC0 && Clean(mem, seg, pos)
    ensures mem[pos] <= 63 && pos + 1 + mem[pos] <= MAX && Clean(mem, seg, pos + 1 + mem[pos])
    ensures forall i :: pos + 1 <= i < pos + 1 + mem[pos] ==> mem[i] != 0
    ensures NameReader.Labels(NameReader.Expand(mem, seg, pos, MAX).items) ==
            [mem[pos + 1..pos + 1 + mem[pos]]] +
            NameReader.Labels(NameReader.Expand(mem, seg, pos + 1 + mem[pos], MAX).items)
  {
    var e := NameReader.Expand(mem, seg, pos, MAX);
    var next := pos + 1 + mem[pos];
    var rest, s := NameReader.Expand(mem, seg, next, MAX), mem[pos + 1..next];
    assert e.items == [NameReader.Label(s)] + rest.items;
    LabelFirst(s, rest.items);
    hide NameReader.Expand;
    var ls, tail := NameReader.Labels(e.items), NameReader.Labels(rest.items);
    assert NulFree(ls[0]);
    forall i | 0 <= i < |tail| ensures NulFree(tail[i]) { assert ls[i + 1] == tail[i]; }
    forall i | pos + 1 <= i < next ensures mem[i] != 0 { assert ls[0][i - pos - 1] == mem[i]; }
  }

  lemma CleanJump(mem: seq<byte>, seg: nat, pos: nat)
    requires Buffer(mem) && seg <= pos < MAX && mem[pos] >= 0xC0 && Clean(mem, seg, pos)
    ensures var target := NameReader.PointerTarget(mem, pos);
            && target < seg && Clean(mem, target, target)
            && NameReader.Labels(NameReader.Expand(mem, seg, pos, MAX).items) ==
               NameReader.Labels(NameReader.Expand(mem, target, target, MAX).items)
  {
    var e := NameReader.Expand(mem, seg, pos, MAX);
    NameReader.LabelsTail(e.items, NameReader.Labels(e.items));
    assert e.items[1..] == NameReader.Expand(mem, NameReader.PointerTarget(mem, pos),
                                             NameReader.PointerTarget(mem, pos), MAX).items;
  }

  /** From in front of the length field no reading comes to it: the fields hold NULs that no label spans. */
  lemma {:induction false} LowSkips(mem: seq<byte>, seg: nat, pos: nat, n: nat)
    requires seg <= pos < n + 8 && FieldsAt(mem, n) && Clean(mem, seg, pos)
    ensures Skips(mem, seg, pos, n + 8)
    decreases seg, |mem| - pos
  {
    hide Clean, NameReader.Expand;
    if pos >= MAX || mem[pos] == 0 {
    } else if mem[pos] < 0xC0 {
      CleanLabel(mem, seg, pos);
      var next := pos + 1 + mem[pos];
      NoLabelSpans(mem, pos, n);
      LowSkips(mem, seg, next, n);
    } else {
      CleanJump(mem, seg, pos);
      var target := NameReader.PointerTarget(mem, pos);
      LowSkips(mem, target, target, n);
    }
  }

  lemma NoLabelSpans(mem: seq<byte>, pos: nat, n: nat)
    requires FieldsAt(mem, n) && pos < n + 8 && 0 < mem[pos] <= 63 && pos + 1 + mem[pos] <= MAX
    requires forall i :: pos + 1 <= i < pos + 1 + mem[pos] ==> mem[i] != 0
    ensures pos + 1 + mem[pos] <= n
  {
    assert pos < n ==> !(pos + 1 <= n < pos + 1 + mem[pos]);
    assert pos < n + 4 ==> !(pos + 1 <= n + 4 < pos + 1 + mem[pos]);
    assert !(pos + 1 <= n + 8 < pos + 1 + mem[pos]);
  }

  predicate AtMostFour(ls: seq<text>) {
    forall i :: 0 <= i < |ls| ==> |ls[i]| <= 4
  }

  /** Between the length field and a name six octets behind it only labels of up to four octets lead to it. */
  lemma {:induction false} HighSkips(mem: seq<byte>, seg: nat, pos: nat, n: nat, d: nat)
    requires FieldsAt(mem, n) && n + 10 <= pos < d <= n + 16 && seg <= pos
    requires NameReader.StaysBelow(mem, seg, pos, MAX, d) && Clean(mem, seg, pos)
    ensures Skips(mem, seg, pos, n + 8) || AtMostFour(NameReader.Labels(NameReader.Expand(mem, seg, pos, MAX).items))
    decreases seg, |mem| - pos
  {
    if pos >= MAX || mem[pos] == 0 {
    } else if mem[pos] < 0xC0 {
      hide Clean, NameReader.Expand, FieldsAt;
      CleanLabel(mem, seg, pos);
      HighSkips(mem, seg, pos + 1 + mem[pos], n, d);
    } else {
      hide Clean, NameReader.Expand;
      CleanJump(mem, seg, pos);
      var target := NameReader.PointerTarget(mem, pos);
      if target < n + 8 { LowSkips(mem, target, target, n); }
      else if target < n + 10 { EmptyName(mem, target); }
      else { HighSkips(mem, target, target, n, d); }
    }
  }

  lemma EmptyName(mem: seq<byte>, pos: nat)
    requires Buffer(mem) && pos < MAX && mem[pos] == 0
    ensures NameReader.Labels(NameReader.Expand(mem, pos, pos, MAX).items) == []
  {
  }

  // ---------------------------------------------------------------- the match of a name in the data

  /**
   Where in the name of a record the writer is, and in which record: a PTR record has its name right behind
   the length field, an SRV record has priority, weight and port in between and two labels in its name.
   */
  predicate Where(mem: seq<byte>, n: nat, d: nat, index: nat, strings: seq<text>) {
    && FieldsAt(mem, n) && d <= index <= MAX
    && (d == n + 10
        || (d == n + 16 &&
            (strings == []
             || (index == d && |strings| == 2 && strings[1] == LOCAL)
             || (index > d && strings == [LOCAL] && 1 <= mem[d] <= 63))))
  }

  /** A settled match does not visit the length field. */
  lemma MatchSkips(mem: seq<byte>, n: nat, d: nat, index: nat, strings: seq<text>, loc: nat)
    requires Buffer(mem) && Where(mem, n, d, index, strings) && strings != [] && Plain(strings)
    requires loc < index < MAX
    requires Accepts(mem, loc, strings) && Settled(mem, loc, d, index, |strings|)
    ensures Skips(mem, loc, loc, n + 8)
  {
    hide Clean, Accepts, Settled, NameReader.Expand, NameReader.Labels, Skips, FieldsAt;
    MatchIsClean(mem, d, index, strings, loc);
    NotInField(mem, n, loc);
    hide Plain;
    if loc < n + 8 { LowSkips(mem, loc, loc, n); }
    else {
      if index == d {
        HighMatch(mem, n, d, strings, loc);
      } else {
        TailInPorts(mem, n, d, loc);
        assert false;
      }
    }
  }

  lemma NotInField(mem: seq<byte>, n: nat, loc: nat)
    requires FieldsAt(mem, n) && loc < MAX && mem[loc] > 0
    ensures loc < n + 8 || n + 10 <= loc
  {
  }

  lemma HighMatch(mem: seq<byte>, n: nat, d: nat, strings: seq<text>, loc: nat)
    requires Buffer(mem) && FieldsAt(mem, n) && n + 10 <= loc < d <= n + 16
    requires NameReader.StaysBelow(mem, loc, loc, MAX, d)
    requires Clean(mem, loc, loc) && |strings| == 2 && strings[1] == LOCAL
    requires CaseEqAll(strings, NameReader.Labels(NameReader.Expand(mem, loc, loc, MAX).items))
    ensures Skips(mem, loc, loc, n + 8)
  {
    hide Clean, Skips, NameReader.Expand, NameReader.Labels, NameReader.StaysBelow, FieldsAt;
    HighSkips(mem, loc, loc, n, d);
    var ls := NameReader.Labels(NameReader.Expand(mem, loc, loc, MAX).items);
    assert |ls[1]| == |strings[1]| == 5;
  }

  lemma MatchIsClean(mem: seq<byte>, d: nat, index: nat, strings: seq<text>, loc: nat)
    requires Buffer(mem) && strings != [] && Plain(strings) && loc < MAX
    requires Accepts(mem, loc, strings) && Settled(mem, loc, d, index, |strings|)
    ensures Clean(mem, loc, loc) && 0 < mem[loc] == |strings[0]| && loc < d
    ensures NameReader.StaysBelow(mem, loc, loc, MAX, index)
    ensures var ls := NameReader.Labels(NameReader.Expand(mem, loc, loc, MAX).items);
            CaseEqAll(strings, ls) && |ls| == |strings|
  {
    AcceptedReads(mem, loc, strings);
    AcceptedSpells(mem, loc, strings);
    hide NameReader.Expand, NameReader.Fill, NameReader.StaysBelow;
  }

  /** The last label is not found in the six octets in front of the first one. */
  lemma TailInPorts(mem: seq<byte>, n: nat, d: nat, loc: nat)
    requires Buffer(mem) && d == n + 16 && n + 10 <= loc < d < MAX
    requires Clean(mem, loc, loc) && Accepts(mem, loc, [LOCAL])
    ensures 1 <= mem[d] <= 63 ==> |NameReader.Labels(NameReader.Expand(mem, loc, loc, MAX).items)| > 1
  {
    StartsWithLocal(mem, loc);
    hide Accepts, NameReader.Expand;
    CleanLabel(mem, loc, loc);
    hide Clean;
    if loc + 6 == d {
      if 1 <= mem[d] <= 63 { CleanLabel(mem, loc, d); }
    } else {
      assert mem[d] == mem[loc + 1..loc + 6][d - loc - 1] == LOCAL[d - loc - 1];
    }
  }

  lemma StartsWithLocal(mem: seq<byte>, loc: nat)
    requires Buffer(mem) && loc < MAX && Accepts(mem, loc, [LOCAL])
    ensures loc + 6 <= MAX && mem[loc] == 5 && mem[loc + 1..loc + 6] == LOCAL
  {
  }

  /** With a settled match, or none, what is written from `index` on does not visit the length field. */
  predicate Passes(mem: seq<byte>, n: nat, d: nat, index: nat, strings: seq<text>)
    requires Buffer(mem) && d <= index <= MAX && Strings(strings)
  {
    TakesSettledMatch(mem, d, index, strings) ==> Skips(AppendFqdn(mem, index, strings).mem, d, index, n + 8)
  }

  lemma {:induction false} TargetSkips(mem: seq<byte>, n: nat, d: nat, index: nat, strings: seq<text>)
    requires Where(mem, n, d, index, strings) && Plain(strings) && index + Size(strings) < MAX
    ensures Passes(mem, n, d, index, strings)
    decreases |strings|
  {
    if strings == [] { NoneSkips(mem, n, d, index); }
    else {
      assert Buffer(mem) && d <= index <= MAX;
      hide Where, Passes, FindMatch, Accepts;
      if FindMatch(mem, 0, index, strings) == -1 {
        var head := AppendString(mem, index, strings[0]);
        WhereNext(mem, n, d, index, strings);
        TargetSkips(head.mem, n, d, head.index, strings[1..]);
        LiteralPasses(mem, n, d, index, strings);
      } else {
        PointerPasses(mem, n, d, index, strings);
      }
    }
  }

  lemma LiteralPasses(mem: seq<byte>, n: nat, d: nat, index: nat, strings: seq<text>)
    requires Where(mem, n, d, index, strings) && strings != [] && Plain(strings) && index + Size(strings) < MAX
    requires FindMatch(mem, 0, index, strings) == -1
    requires var head := AppendString(mem, index, strings[0]); Passes(head.mem, n, d, head.index, strings[1..])
    ensures Passes(mem, n, d, index, strings)
  {
    assert n + 10 <= d <= index;
    hide FindMatch, Skips, Size, Where, AppendFqdn, TakesSettledMatch, AppendString;
    WriterStep(mem, d, index, strings);
    FirstLabel(mem, index, strings);
    if TakesSettledMatch(mem, d, index, strings) { LabelSkips(AppendFqdn(mem, index, strings).mem, n, d, index); }
  }

  lemma PointerPasses(mem: seq<byte>, n: nat, d: nat, index: nat, strings: seq<text>)
    requires Where(mem, n, d, index, strings) && strings != [] && Plain(strings) && index + Size(strings) < MAX
    requires FindMatch(mem, 0, index, strings) >= 0
    ensures Passes(mem, n, d, index, strings)
  {
    assert n + 10 <= d <= index;
    hide FindMatch, Skips, Where, AppendString, AppendFqdn, TakesSettledMatch, Accepts, Settled, Size;
    WriterStep(mem, d, index, strings);
    var loc := FindMatch(mem, 0, index, strings);
    if Settled(mem, loc, d, index, |strings|) {
      MatchSkips(mem, n, d, index, strings, loc);
      PointerSkips(mem, n, d, index, |strings|, loc);
    }
  }

  lemma NoneSkips(mem: seq<byte>, n: nat, d: nat, index: nat)
    requires Where(mem, n, d, index, []) && index < MAX
    ensures Passes(mem, n, d, index, [])
  {
  }

  lemma SizeNext(strings: seq<text>)
    requires strings != [] && Plain(strings)
    ensures Plain(strings[1..]) && Size(strings) == 1 + |strings[0]| + Size(strings[1..])
  {
  }

  lemma WhereNext(mem: seq<byte>, n: nat, d: nat, index: nat, strings: seq<text>)
    requires Where(mem, n, d, index, strings) && strings != [] && Plain(strings) && index + Size(strings) < MAX
    ensures var head := AppendString(mem, index, strings[0]);
            && Where(head.mem, n, d, head.index, strings[1..]) && Plain(strings[1..])
            && head.index + Size(strings[1..]) < MAX
  {
    var head := AppendString(mem, index, strings[0]);
    assert AgreeBelow(mem, head.mem, index);
    assert FieldsAt(head.mem, n);
    assert head.mem[index] == |strings[0]|;
    SizeNext(strings);
    if d == n + 16 && index == d && |strings| == 2 { assert strings[1..] == [LOCAL]; }
    else if d == n + 16 { assert strings[1..] == []; }
  }

  lemma LabelSkips(mem: seq<byte>, n: nat, d: nat, pos: nat)
    requires Buffer(mem) && n + 10 <= d <= pos < MAX && 0 < mem[pos] <= 63 && pos + 1 + mem[pos] <= MAX
    requires Skips(mem, d, pos + 1 + mem[pos], n + 8)
    ensures Skips(mem, d, pos, n + 8)
  {
  }

  lemma PointerSkips(mem: seq<byte>, n: nat, d: nat, index: nat, count: nat, loc: nat)
    requires Buffer(mem) && n + 10 <= d <= index && loc < index && index + 1 < MAX
    requires Settled(mem, loc, d, index, count)
    requires Skips(mem, loc, loc, n + 8)
    ensures Skips(AppendU16(mem, index, NAME_REF + loc).mem, d, index, n + 8)
  {
    PointerWritten(mem, index, loc);
    hide AppendU16, NameReader.Expand;
    var w := AppendU16(mem, index, NAME_REF + loc);
    SameSkips(mem, w.mem, loc, loc, index, n + 8);
    hide NameReader.PointerTarget;
  }

  // ---------------------------------------------------------------- the name of a record

  /** Records whose data end in a name, as the builders make them. */
  predicate NamesTarget(r: Record) {
    && r.named && (r.kind.rclass == 0x0001 || r.kind.rclass == 0x8001) && r.kind.ttl in {0, 120, 4500}
    && ((r.kind.rtype == 12 && r.prefix == [])
        || (r.kind.rtype == 33 && |r.prefix| == 6 && |r.target| == 2 && r.target[1] == LOCAL))
  }

  /** The name inside a record was written over `mid`, and took a match that is settled and clear, or none. */
  ghost predicate TargetGood(mid: seq<byte>, after: seq<byte>, n: nat, upto: nat, r: Record) {
    && Buffer(after) && n + 10 + |r.prefix| <= upto <= MAX && Strings(r.target)
    && TargetOver(mid, after, n, n + 10 + |r.prefix|, upto, r.target) && Good(mid, n + 10 + |r.prefix|, r.target)
  }

  lemma FieldsWhileOpen(mid: seq<byte>, after: seq<byte>, n: nat, r: Record)
    requires Buffer(mid) && Buffer(after) && n + 10 <= MAX && AgreeBelow(mid, after, n + 8) && U16At(mid, n + 8) == 0
    requires KindAt(after, n) == r.kind && NamesTarget(r)
    ensures FieldsAt(mid, n)
  {
    assert r.kind.ttl == U16At(after, n + 4) * 0x10000 + U16At(after, n + 6);
  }

  /** The name inside a record reads back in the packet that is sent, and ends with the record. */
  lemma TargetReadsBack(mid: seq<byte>, after: seq<byte>, n: nat, upto: nat, r: Record, later: seq<byte>)
    requires TargetGood(mid, after, n, upto, r) && KindAt(after, n) == r.kind && NamesTarget(r)
    requires Buffer(later) && AgreeOn(after, later, HEAD_LEN, upto)
    ensures var d := n + 10 + |r.prefix|;
            ReadsAs(later, d, d, r.target) && NameReader.Expand(later, d, d, MAX).next == upto
  {
    var d := n + 10 + |r.prefix|;
    OverFields(mid, after, n, upto, r);
    hide KindAt, NamesTarget, Good, TargetGood, TargetOver, Where, AppendFqdn, NameReader.Expand, NameReader.Labels;
    hide NameReader.StaysBelow, StaysAbove, Skips, AgreeOn, AgreeBut, ReadsAs;
    WrittenOver(mid, n, d, r.target);
    var w := AppendFqdn(mid, d, r.target);
    OverAgrees(mid, after, n, d, upto, r.target, later);
    ExpandBut(w.mem, later, d, d, upto, n + 8);
    SameReading(w.mem, later, d, r.target);
  }

  lemma SameReading(a: seq<byte>, b: seq<byte>, pos: nat, strings: seq<text>)
    requires Buffer(a) && Buffer(b) && NameReader.Expand(b, pos, pos, MAX) == NameReader.Expand(a, pos, pos, MAX)
    ensures ReadsAs(b, pos, pos, strings) == ReadsAs(a, pos, pos, strings)
  {
    hide NameReader.Expand, NameReader.Labels, CaseEqAll;
  }

  lemma OverFields(mid: seq<byte>, after: seq<byte>, n: nat, upto: nat, r: Record)
    requires TargetGood(mid, after, n, upto, r) && KindAt(after, n) == r.kind && NamesTarget(r)
    ensures var d := n + 10 + |r.prefix|;
            && Where(mid, n, d, d, r.target) && Good(mid, d, r.target) && TargetOver(mid, after, n, d, upto, r.target)
            && Buffer(mid) && d <= MAX && AppendFqdn(mid, d, r.target).index == upto
  {
    hide AppendFqdn, Good, KindAt, U16At, FieldsAt, NamesTarget, Where;
    FieldsWhileOpen(mid, after, n, r);
    WhereFirst(mid, n, r);
    GoodBuffer(mid, n + 10 + |r.prefix|, r.target);
  }

  lemma GoodBuffer(mem: seq<byte>, index: nat, strings: seq<text>)
    requires Good(mem, index, strings)
    ensures Buffer(mem) && index <= MAX
  {
    hide TakesSettledMatch, Clear;
  }

  lemma WhereFirst(mid: seq<byte>, n: nat, r: Record)
    requires FieldsAt(mid, n) && NamesTarget(r) && n + 10 + |r.prefix| <= MAX
    ensures var d := n + 10 + |r.prefix|; Where(mid, n, d, d, r.target)
  {
    hide FieldsAt;
  }

  lemma WrittenOver(mid: seq<byte>, n: nat, d: nat, target: seq<text>)
    requires Where(mid, n, d, d, target) && Good(mid, d, target)
    ensures var w := AppendFqdn(mid, d, target);
            && ReadsAs(w.mem, d, d, target) && NameReader.Expand(w.mem, d, d, MAX).next == w.index
            && NameReader.StaysBelow(w.mem, d, d, MAX, w.index) && StaysAbove(w.mem, d, d) && Skips(w.mem, d, d, n + 8)
  {
    hide Where, AppendFqdn, NameReader.Expand, Clear, Size, NameReader.StaysBelow, StaysAbove, Skips, ReadsAs;
    hide TakesSettledMatch;
    SettledFrom(mid, d, d, target);
    ClearIsAbove(mid, d, d, target);
    TargetSkips(mid, n, d, d, target);
  }

  lemma OverAgrees(mid: seq<byte>, after: seq<byte>, n: nat, d: nat, upto: nat, target: seq<text>, later: seq<byte>)
    requires Buffer(after) && n + 10 <= d <= upto <= MAX && Strings(target)
    requires TargetOver(mid, after, n, d, upto, target)
    requires Buffer(later) && AgreeOn(after, later, HEAD_LEN, upto)
    ensures AgreeBut(AppendFqdn(mid, d, target).mem, later, HEAD_LEN, upto, n + 8)
  {
    var w := AppendFqdn(mid, d, target);
    assert AgreeBelow(mid, w.mem, d);
    forall i | HEAD_LEN <= i < upto && i != n + 8 && i != n + 9 ensures w.mem[i] == later[i] {
      assert later[i] == after[i];
    }
  }
}
