/**
 The names in front of questions and records of a packet, read back from the packet that is sent.  The
 counts in its header are filled in when the names are there, so a name has to be readable without
 the header.
 */
module ReadBack {
  import opened Bytes
  import opened Lists
  import opened Wire
  import opened NameWriter
  import opened Framing
  import opened Records
  import opened RoundTrip = NameRoundTrip
  import Dispatch
  import NameReader

  // ---------------------------------------------------------------- readings without the header

  /** All octets the reading visits lie behind the header. */
  predicate StaysAbove(mem: seq<byte>, seg: nat, pos: nat)
    requires Buffer(mem) && seg <= pos
    decreases seg, |mem| - pos
  {
    HEAD_LEN <= pos &&
    if pos >= MAX || mem[pos] == 0 then true
    else if mem[pos] < 0xC0 then
      var len := mem[pos];
      len <= 63 && pos + 1 + len <= MAX ==> StaysAbove(mem, seg, pos + 1 + len)
    else
      var target := NameReader.PointerTarget(mem, pos);
      target < seg ==> StaysAbove(mem, target, target)
  }

  /** A reading between the header and `bound` depends on nothing else. */
  lemma {:induction false} ExpandWithin(a: seq<byte>, b: seq<byte>, seg: nat, pos: nat, bound: nat)
    requires Buffer(a) && Buffer(b) && seg <= pos && AgreeOn(a, b, HEAD_LEN, bound)
    requires StaysAbove(a, seg, pos) && NameReader.StaysBelow(a, seg, pos, MAX, bound)
    ensures NameReader.Expand(b, seg, pos, MAX) == NameReader.Expand(a, seg, pos, MAX) && StaysAbove(b, seg, pos)
    decreases seg, |a| - pos
  {
    if pos >= MAX || a[pos] == 0 {
    } else if a[pos] < 0xC0 {
      var len := a[pos];
      if len <= 63 && pos + 1 + len <= MAX {
        ExpandWithin(a, b, seg, pos + 1 + len, bound);
        assert a[pos + 1..pos + 1 + len] == b[pos + 1..pos + 1 + len];
      }
    } else {
      var target := NameReader.PointerTarget(a, pos);
      assert NameReader.PointerTarget(b, pos) == target;
      if target < seg { ExpandWithin(a, b, target, target, bound); }
    }
  }

  /** A reading that comes to the header fails when the octet it comes to is no length. */
  lemma {:induction false} EntersHeader(mem: seq<byte>, seg: nat, pos: nat) returns (p: nat)
    requires Buffer(mem) && seg <= pos && !StaysAbove(mem, seg, pos)
    ensures p < HEAD_LEN && !NameReader.Expand(mem[p := 64], seg, pos, MAX).ok
    decreases seg, |mem| - pos
  {
    if pos < HEAD_LEN {
      p := pos;
    } else if mem[pos] < 0xC0 {
      p := EntersHeader(mem, seg, pos + 1 + mem[pos]);
    } else {
      var target := NameReader.PointerTarget(mem, pos);
      p := EntersHeader(mem, target, target);
      assert NameReader.PointerTarget(mem[p := 64], pos) == target;
    }
  }

  /** The match the writer takes for `strings`, if it takes one, is read without the header. */
  predicate Clear(mem: seq<byte>, index: nat, strings: seq<text>)
    requires Buffer(mem) && index <= MAX && Strings(strings)
    decreases |strings|
  {
    strings == [] ||
    var loc := FindMatch(mem, 0, index, strings);
    if loc == -1 then
      var head := AppendString(mem, index, strings[0]);
      Clear(head.mem, head.index, strings[1..])
    else StaysAbove(mem, loc, loc)
  }

  /** What is written from `index` on is read without the header exactly when its match is. */
  predicate ClearAbove(mem: seq<byte>, seg: nat, index: nat, strings: seq<text>)
    requires Buffer(mem) && seg <= index <= MAX && Strings(strings)
  {
    TakesSettledMatch(mem, seg, index, strings) ==>
      StaysAbove(AppendFqdn(mem, index, strings).mem, seg, index) == Clear(mem, index, strings)
  }

  lemma {:induction false} ClearIsAbove(mem: seq<byte>, seg: nat, index: nat, strings: seq<text>)
    requires Buffer(mem) && HEAD_LEN <= index && seg <= index && Plain(strings) && index + Size(strings) < MAX
    ensures ClearAbove(mem, seg, index, strings)
    decreases |strings|
  {
    if strings != [] {
      hide ClearAbove, FindMatch, Accepts;
      if FindMatch(mem, 0, index, strings) == -1 {
        var head := AppendString(mem, index, strings[0]);
        ClearIsAbove(head.mem, seg, head.index, strings[1..]);
        LiteralClear(mem, seg, index, strings);
      } else {
        PointerClear(mem, seg, index, strings);
      }
    }
  }

  lemma LiteralClear(mem: seq<byte>, seg: nat, index: nat, strings: seq<text>)
    requires Buffer(mem) && HEAD_LEN <= index && seg <= index && strings != [] && Plain(strings)
    requires index + Size(strings) < MAX && FindMatch(mem, 0, index, strings) == -1
    requires var head := AppendString(mem, index, strings[0]); ClearAbove(head.mem, seg, head.index, strings[1..])
    ensures ClearAbove(mem, seg, index, strings)
  {
    hide FindMatch, StaysAbove, Size, Clear, AppendFqdn, TakesSettledMatch, AppendString;
    WriterStep(mem, seg, index, strings);
    ClearStep(mem, index, strings);
    FirstLabel(mem, index, strings);
    LabelAbove(AppendFqdn(mem, index, strings).mem, seg, index);
  }

  lemma ClearStep(mem: seq<byte>, index: nat, strings: seq<text>)
    requires Buffer(mem) && index <= MAX && strings != [] && Strings(strings)
    requires FindMatch(mem, 0, index, strings) == -1
    ensures var head := AppendString(mem, index, strings[0]);
            Clear(mem, index, strings) == Clear(head.mem, head.index, strings[1..])
  {
    hide FindMatch, AppendString;
  }

  lemma FirstLabel(mem: seq<byte>, index: nat, strings: seq<text>)
    requires Buffer(mem) && strings != [] && Plain(strings) && index + Size(strings) < MAX
    requires FindMatch(mem, 0, index, strings) == -1
    ensures var w := AppendFqdn(mem, index, strings).mem;
            index + 1 + |strings[0]| <= MAX && w[index] == |strings[0]| && 0 < w[index] <= 63
  {
    hide FindMatch, AppendFqdn, TakesSettledMatch;
    WriterStep(mem, index, index, strings);
    var head := AppendString(mem, index, strings[0]);
    assert head.mem[index] == |strings[0]|;
    assert AppendFqdn(head.mem, head.index, strings[1..]).mem[index] == head.mem[index];
  }

  lemma PointerClear(mem: seq<byte>, seg: nat, index: nat, strings: seq<text>)
    requires Buffer(mem) && HEAD_LEN <= index && seg <= index && strings != [] && Plain(strings)
    requires index + Size(strings) < MAX && FindMatch(mem, 0, index, strings) >= 0
    ensures ClearAbove(mem, seg, index, strings)
  {
    hide FindMatch, StaysAbove, AppendString;
    WriterStep(mem, seg, index, strings);
    SettledStays(mem, seg, index, strings);
    var loc := FindMatch(mem, 0, index, strings);
    hide AppendFqdn, TakesSettledMatch;
    if Settled(mem, loc, seg, index, |strings|) { PointerAbove(mem, seg, index, loc); }
  }

  lemma LabelAbove(mem: seq<byte>, seg: nat, pos: nat)
    requires Buffer(mem) && HEAD_LEN <= pos < MAX && seg <= pos && 0 < mem[pos] <= 63 && pos + 1 + mem[pos] <= MAX
    ensures StaysAbove(mem, seg, pos) == StaysAbove(mem, seg, pos + 1 + mem[pos])
  {
  }

  lemma PointerAbove(mem: seq<byte>, seg: nat, index: nat, loc: nat)
    requires Buffer(mem) && HEAD_LEN <= index && seg <= index && index + 1 < MAX && loc < seg
    requires NameReader.StaysBelow(mem, loc, loc, MAX, index)
    ensures StaysAbove(AppendU16(mem, index, NAME_REF + loc).mem, seg, index) == StaysAbove(mem, loc, loc)
  {
    PointerWritten(mem, index, loc);
    var w := AppendU16(mem, index, NAME_REF + loc);
    hide AppendU16, NameReader.PointerTarget;
    SameAbove(mem, w.mem, loc, loc, index);
  }

  lemma {:induction false} SameAbove(a: seq<byte>, b: seq<byte>, seg: nat, pos: nat, bound: nat)
    requires Buffer(a) && Buffer(b) && seg <= pos && AgreeBelow(a, b, bound)
    requires NameReader.StaysBelow(a, seg, pos, MAX, bound)
    ensures StaysAbove(a, seg, pos) == StaysAbove(b, seg, pos)
    decreases seg, |a| - pos
  {
    if pos >= MAX || a[pos] == 0 {
    } else if a[pos] < 0xC0 {
      var len := a[pos];
      if len <= 63 && pos + 1 + len <= MAX { SameAbove(a, b, seg, pos + 1 + len, bound); }
    } else {
      var target := NameReader.PointerTarget(a, pos);
      assert NameReader.PointerTarget(b, pos) == target;
      if target < seg { SameAbove(a, b, target, target, bound); }
    }
  }

  // ---------------------------------------------------------------- one name

  /** A name that reads back whatever the header comes to hold. */
  predicate Good(mem: seq<byte>, index: nat, strings: seq<text>) {
    && Buffer(mem) && HEAD_LEN <= index && Plain(strings) && index + Size(strings) < MAX
    && TakesSettledMatch(mem, index, index, strings) && Clear(mem, index, strings)
  }

  lemma NameStays(before: seq<byte>, after: seq<byte>, from: nat, strings: seq<text>, later: seq<byte>)
    requires Good(before, from, strings) && Buffer(after) && Buffer(later)
    requires var w := AppendFqdn(before, from, strings);
             AgreeBelow(w.mem, after, w.index) && AgreeOn(after, later, HEAD_LEN, w.index)
    ensures ReadsAs(later, from, from, strings)
  {
    hide AppendFqdn, NameReader.Expand, TakesSettledMatch, Clear, Size, NameReader.StaysBelow, StaysAbove, FindMatch;
    SettledFrom(before, from, from, strings);
    ClearIsAbove(before, from, from, strings);
    var w := AppendFqdn(before, from, strings);
    ExpandWithin(w.mem, later, from, from, w.index);
    NameReader.ExpandItemsOk(later, from, from, MAX);
  }

  /**
   A name with a settled match, or none, reads back whatever the header comes to hold if and only if
   its match is read without the header.
   */
  lemma HeaderIsNotRead(mem: seq<byte>, index: nat, strings: seq<text>)
    requires Buffer(mem) && HEAD_LEN <= index && Plain(strings) && index + Size(strings) < MAX
    requires TakesSettledMatch(mem, index, index, strings)
    ensures var w := AppendFqdn(mem, index, strings);
            (forall later: seq<byte> :: Buffer(later) && AgreeOn(w.mem, later, HEAD_LEN, MAX + 1) ==>
               ReadsAs(later, index, index, strings)) == Clear(mem, index, strings)
  {
    hide AppendFqdn, TakesSettledMatch, FindMatch, NameReader.Expand, Size;
    var w := AppendFqdn(mem, index, strings);
    ClearIsAbove(mem, index, index, strings);
    hide Clear, StaysAbove;
    if Clear(mem, index, strings) {
      forall later: seq<byte> | Buffer(later) && AgreeOn(w.mem, later, HEAD_LEN, MAX + 1)
        ensures ReadsAs(later, index, index, strings)
      {
        NameStays(mem, w.mem, index, strings, later);
      }
    } else {
      var p := EntersHeader(w.mem, index, index);
      var later := w.mem[p := 64];
      assert !ReadsAs(later, index, index, strings);
      assert AgreeOn(w.mem, later, HEAD_LEN, MAX + 1);
    }
  }

  /**
   The owner of a record laid down by the builders reads back in every buffer that keeps what lies
   behind the header up to the end of the record.
   */
  lemma OwnerReadsBack(before: seq<byte>, after: seq<byte>, from: nat, upto: nat, r: Record, later: seq<byte>)
    requires Spelled(before, after, from, upto, r) && Good(before, from, r.owner)
    requires Buffer(later) && AgreeOn(after, later, HEAD_LEN, upto)
    ensures ReadsAs(later, from, from, r.owner)
  {
    hide AppendFqdn, Good, ReadsAs;
    NameStays(before, after, from, r.owner, later);
  }

  /** So does the name in a question. */
  lemma QuestionReadsBack(before: seq<byte>, after: seq<byte>, from: nat, upto: nat, q: Dispatch.Question,
                          later: seq<byte>)
    requires Dispatch.Asks(before, after, from, upto, q) && Good(before, from, Dispatch.QuestionName(q))
    requires Buffer(later) && AgreeOn(after, later, HEAD_LEN, upto)
    ensures ReadsAs(later, from, from, Dispatch.QuestionName(q))
  {
    hide AppendFqdn, Good, ReadsAs, Dispatch.QuestionName;
    NameStays(before, after, from, Dispatch.QuestionName(q), later);
  }

  // ---------------------------------------------------------------- where a name reads the header

  /** Octets of a TXT record, say, that spell a host name and jump to the low octet of the answer count. */
  predicate JumpsToCount(mem: seq<byte>, loc: nat, s: text)
    requires Buffer(mem)
  {
    var n := loc + 1 + |s|;
    && 1 <= |s| <= 63 && n + 8 <= MAX && mem[loc] == |s| && mem[loc + 1..n] == s
    && mem[n] == 5 && mem[n + 1..n + 6] == LOCAL && mem[n + 6] == 0xC0 && mem[n + 7] == 7
  }

  /**
   A host name is matched with such octets, if none in front has its length, while no answer is counted
   yet. It reads back as long as none is; once the count is filled in it does not.
   */
  lemma CountChangesTheName(mem: seq<byte>, loc: nat, index: nat, s: text, count: byte)
    requires Buffer(mem) && HEAD_LEN <= loc < index && JumpsToCount(mem, loc, s) && loc + |s| + 9 <= index
    requires NulFree(s) && mem[7] == 0 && index + |s| + 7 < MAX && 1 <= count < 0xC0
    requires !CaseEq(s, SUB) && forall i :: 0 <= i < loc ==> mem[i] != |s|
    ensures var w := AppendFqdn(mem, index, [s, LOCAL]);
            && TakesSettledMatch(mem, index, index, [s, LOCAL]) && ReadsAs(w.mem, index, index, [s, LOCAL])
            && !ReadsAs(w.mem[7 := count], index, index, [s, LOCAL])
  {
    hide NameReader.Expand, NameReader.StaysBelow, FindMatch, Accepts;
    var strings := [s, LOCAL];
    IsMatched(mem, loc, s, index);
    EndsInHeader(mem, loc, s, index);
    SizeOfTwo(s);
    CompressionRoundTrip(mem, index, strings);
    var w := AppendFqdn(mem, index, strings);
    WriterStep(mem, index, index, strings);
    hide AppendFqdn, TakesSettledMatch, ReadsAs, Plain;
    assert w.mem == AppendU16(mem, index, NAME_REF + loc).mem;
    PointerWritten(mem, index, loc);
    var later := w.mem[7 := count];
    assert later[loc..index] == mem[loc..index];
    Within(mem, later, loc, index, s);
    Misread(later, loc, s, index);
  }

  lemma IsMatched(mem: seq<byte>, loc: nat, s: text, index: nat)
    requires Buffer(mem) && JumpsToCount(mem, loc, s) && HEAD_LEN <= loc < index <= MAX && mem[7] == 0
    requires NulFree(s) && !CaseEq(s, SUB) && forall i :: 0 <= i < loc ==> mem[i] != |s|
    ensures FindMatch(mem, 0, index, [s, LOCAL]) == loc
  {
    hide NameReader.Expand, NameReader.Fill, FindMatch, Accepts, CaseEq;
    var strings := [s, LOCAL];
    forall i | 0 <= i < loc ensures !Accepts(mem, i, strings) { NotAccepted(mem, i, strings); }
    assert Accepts(mem, loc, strings) by { IsAccepted(mem, loc, s); }
    var m := FindMatch(mem, 0, index, strings);
  }

  lemma IsAccepted(mem: seq<byte>, loc: nat, s: text)
    requires Buffer(mem) && JumpsToCount(mem, loc, s) && HEAD_LEN <= loc && mem[7] == 0
    requires NulFree(s) && !CaseEq(s, SUB)
    ensures Accepts(mem, loc, [s, LOCAL])
  {
    hide NameReader.Expand, NameReader.Fill, CaseEq;
    NameItems(mem, loc, s);
    var items := NameReader.Expand(mem, loc, loc, MAX).items;
    FillsTwo(s, items);
    CaseEqSelf(s);
    CaseEqSelf(LOCAL);
    var strings, v := [s, LOCAL], NameReader.Fill(NameReader.EMPTY, items);
    assert NameReader.Slot(v, 0) == strings[0] && NameReader.Slot(v, 1) == strings[1];
  }

  lemma NameItems(mem: seq<byte>, loc: nat, s: text)
    requires Buffer(mem) && JumpsToCount(mem, loc, s) && HEAD_LEN <= loc && mem[7] == 0
    ensures var e := NameReader.Expand(mem, loc, loc, MAX);
            e.ok && e.items == [NameReader.Label(s)] + ([NameReader.Label(LOCAL)] + [NameReader.Jump])
  {
    var n := loc + 1 + |s|;
    JumpOnly(mem, loc, n + 6);
    hide NameReader.Expand;
    LabelStep(mem, loc, n, LOCAL);
    LabelStep(mem, loc, loc, s);
  }

  lemma JumpOnly(mem: seq<byte>, seg: nat, pos: nat)
    requires Buffer(mem) && 7 < seg <= pos && pos + 1 < MAX && mem[pos] == 0xC0 && mem[pos + 1] == 7 && mem[7] == 0
    ensures var e := NameReader.Expand(mem, seg, pos, MAX); e.ok && e.items == [NameReader.Jump]
  {
    assert NameReader.PointerTarget(mem, pos) == 7;
    assert NameReader.Expand(mem, 7, 7, MAX) == NameReader.Expansion([], true, 8);
  }

  lemma FillsTwo(s: text, items: seq<NameReader.Item>)
    requires items == [NameReader.Label(s)] + ([NameReader.Label(LOCAL)] + [NameReader.Jump])
    requires 1 <= |s| <= 63 && NulFree(s) && !CaseEq(s, SUB)
    ensures NameReader.ItemsOk(items)
    ensures var v := NameReader.Fill(NameReader.EMPTY, items); v.parts == 2 && v.host == s && v.service == LOCAL
  {
    hide NameReader.Fill, NameReader.Place, CaseEq;
    PlaceBoth(s);
    Joined([items[0]], [NameReader.Label(LOCAL)] + [NameReader.Jump]);
    Joined([NameReader.Label(LOCAL)], [NameReader.Jump]);
    assert [NameReader.Jump][1..] == [];
    var v := NameReader.EMPTY.(host := s, parts := 1);
    NameReader.FillItem(NameReader.EMPTY, items);
    NameReader.FillItem(v, items[1..]);
    NameReader.FillItem(v.(service := LOCAL, parts := 2), [NameReader.Jump]);
    NameReader.FillItem(v.(service := LOCAL, parts := 2), []);
  }

  lemma PlaceBoth(s: text)
    requires s != [] && NulFree(s) && !CaseEq(s, SUB)
    ensures var v := NameReader.EMPTY.(host := s, parts := 1);
            && NameReader.Place(NameReader.EMPTY, s) == v
            && NameReader.Place(v, LOCAL) == v.(service := LOCAL, parts := 2)
  {
    CaseEqSelf(LOCAL);
    assert NulFree(LOCAL) && !CaseEq(LOCAL, SUB);
  }

  lemma Misread(mem: seq<byte>, loc: nat, s: text, index: nat)
    requires Buffer(mem) && JumpsToCount(mem, loc, s) && HEAD_LEN <= loc < index < MAX - 1 && 1 <= mem[7] < 0xC0
    requires mem[index] >= 0xC0 && NameReader.PointerTarget(mem, index) == loc
    ensures !ReadsAs(mem, index, index, [s, LOCAL])
  {
    GoesOn(mem, loc, s);
    JumpStep(mem, index, index);
  }

  lemma Within(a: seq<byte>, b: seq<byte>, loc: nat, index: nat, s: text)
    requires Buffer(a) && Buffer(b) && JumpsToCount(a, loc, s) && loc + |s| + 9 <= index <= MAX
    requires a[loc..index] == b[loc..index]
    ensures JumpsToCount(b, loc, s)
  {
    var n := loc + 1 + |s|;
    assert forall i :: loc <= i < index ==> b[i] == b[loc..index][i - loc] == a[i];
    assert b[loc + 1..n] == a[loc + 1..n] && b[n + 1..n + 6] == a[n + 1..n + 6];
  }

  lemma SizeOfTwo(s: text)
    requires 1 <= |s| <= 63 && NulFree(s)
    ensures Plain([s, LOCAL]) && Size([s, LOCAL]) == |s| + 7
  {
    assert [s, LOCAL][1..] == [LOCAL] && [LOCAL][1..] == [] && NulFree(LOCAL);
    assert Size([LOCAL]) == 6;
  }

  /** The reading up to the jump. */
  lemma UpToTheJump(mem: seq<byte>, loc: nat, s: text)
    requires Buffer(mem) && JumpsToCount(mem, loc, s) && HEAD_LEN <= loc
    ensures var e, rest := NameReader.Expand(mem, loc, loc, MAX), NameReader.Expand(mem, 7, 7, MAX);
            && NameReader.Labels(e.items) == [s, LOCAL] + NameReader.Labels(rest.items) && e.ok == rest.ok
  {
    var n := loc + 1 + |s|;
    hide NameReader.Expand, NameReader.Labels;
    JumpStep(mem, loc, n + 6);
    LabelStep(mem, loc, n, LOCAL);
    LabelStep(mem, loc, loc, s);
    var f, j := NameReader.Expand(mem, loc, n, MAX), NameReader.Expand(mem, loc, n + 6, MAX);
    LabelFirst(LOCAL, j.items);
    LabelFirst(s, f.items);
    assert [s, LOCAL] == [s] + [LOCAL];
  }

  lemma LabelFirst(s: text, rest: seq<NameReader.Item>)
    ensures NameReader.Labels([NameReader.Label(s)] + rest) == [s] + NameReader.Labels(rest)
  {
    assert ([NameReader.Label(s)] + rest)[1..] == rest;
  }

  lemma EndsInHeader(mem: seq<byte>, loc: nat, s: text, index: nat)
    requires Buffer(mem) && JumpsToCount(mem, loc, s) && HEAD_LEN <= loc && mem[7] == 0 && NulFree(s)
    requires loc + |s| + 9 <= index <= MAX && FindMatch(mem, 0, index, [s, LOCAL]) == loc
    ensures TakesSettledMatch(mem, index, index, [s, LOCAL])
  {
    UpToTheJump(mem, loc, s);
    assert NameReader.Expand(mem, 7, 7, MAX).items == [] && NulFree(LOCAL);
    BelowTheJump(mem, loc, s, index);
    hide NameReader.Expand, NameReader.StaysBelow, Accepts;
  }

  lemma BelowTheJump(mem: seq<byte>, loc: nat, s: text, index: nat)
    requires Buffer(mem) && JumpsToCount(mem, loc, s) && HEAD_LEN <= loc && mem[7] == 0 && loc + |s| + 9 <= index
    ensures NameReader.StaysBelow(mem, loc, loc, MAX, index)
  {
    var n := loc + 1 + |s|;
    assert NameReader.PointerTarget(mem, n + 6) == 7;
    assert NameReader.StaysBelow(mem, 7, 7, MAX, index);
    assert NameReader.StaysBelow(mem, loc, n + 6, MAX, index);
    assert NameReader.StaysBelow(mem, loc, n, MAX, index);
  }

  /** With a count there the name has a third label, or none that can be read. */
  lemma GoesOn(mem: seq<byte>, loc: nat, s: text)
    requires Buffer(mem) && JumpsToCount(mem, loc, s) && HEAD_LEN <= loc && 1 <= mem[7] < 0xC0
    ensures var e := NameReader.Expand(mem, loc, loc, MAX); e.ok ==> |NameReader.Labels(e.items)| > 2
  {
    UpToTheJump(mem, loc, s);
    var rest := NameReader.Expand(mem, 7, 7, MAX);
    if rest.ok { assert rest.items[0].Label?; }
  }

  // ---------------------------------------------------------------- the whole packet

  /** Records spelled one behind the other, each with an owner that reads back whatever the header holds. */
  ghost predicate GoodAll(before: seq<byte>, after: seq<byte>, from: nat, upto: nat, rs: seq<Record>)
    decreases |rs|
  {
    if rs == [] then Buffer(before) && after == before && upto == from <= MAX
    else exists mid: seq<byte>, m: nat :: GoodBehind(before, mid, after, from, m, upto, rs)
  }

  ghost predicate GoodBehind(before: seq<byte>, mid: seq<byte>, after: seq<byte>, from: nat, m: nat, upto: nat,
                             rs: seq<Record>)
    requires rs != []
    decreases |rs|, 0
  {
    var last := rs[|rs| - 1];
    GoodAll(before, mid, from, m, rs[..|rs| - 1]) && Spelled(mid, after, m, upto, last) && Good(mid, m, last.owner)
  }

  lemma {:induction false} GoodIsSpelled(before: seq<byte>, after: seq<byte>, from: nat, upto: nat, rs: seq<Record>)
    requires GoodAll(before, after, from, upto, rs)
    ensures Dispatch.SpelledAll(before, after, from, upto, rs)
    decreases |rs|
  {
    hide Spelled, Good;
    if rs != [] {
      var mid, m :| GoodBehind(before, mid, after, from, m, upto, rs);
      GoodIsSpelled(before, mid, from, m, rs[..|rs| - 1]);
      assert Dispatch.Behind(before, mid, after, from, m, upto, rs);
    }
  }

  /** Each owner reads back from where the walk over the packet that is sent comes to its record. */
  lemma {:induction false} OwnersReadBack(before: seq<byte>, after: seq<byte>, from: nat, upto: nat,
                                          rs: seq<Record>, mem: seq<byte>, k: nat)
    requires GoodAll(before, after, from, upto, rs) && Dispatch.RecordsOk(rs) && HEAD_LEN <= from
    requires Buffer(mem) && AgreeOn(after, mem, HEAD_LEN, upto) && k < |rs|
    ensures var at := WalkRecords(mem, from, Dispatch.Kinds(rs[..k]));
            from <= at < upto && ReadsAs(mem, at, at, rs[k].owner)
    decreases |rs|
  {
    hide Spelled, Good, ReadsAs, SkipRecord;
    var last, front := rs[|rs| - 1], rs[..|rs| - 1];
    var mid: seq<byte>, m: nat :| GoodBehind(before, mid, after, from, m, upto, rs);
    SpelledIsFramed(mid, after, m, upto, last);
    GoodIsSpelled(before, mid, from, m, front);
    Dispatch.SpelledWalks(before, mid, from, m, front);
    Dispatch.SpelledBounds(mid, after, m, upto, last);
    hide GoodAll, Dispatch.SpelledAll;
    Kept(mid, after, mem, m, upto);
    assert m < upto by { SpelledTakesRoom(after, m, upto, last.kind); }
    if k < |rs| - 1 {
      OwnersReadBack(before, mid, from, m, front, mem, k);
      assert front[..k] == rs[..k];
    } else {
      WalkRecordsFrame(mid, mem, from, Dispatch.Kinds(front));
      OwnerReadsBack(mid, after, m, upto, last, mem);
    }
  }

  lemma SpelledTakesRoom(mem: seq<byte>, pos: nat, upto: nat, kind: Kind)
    requires Buffer(mem) && SkipRecord(mem, pos, kind) == upto
    ensures pos < upto
  {
  }

  lemma Kept(mid: seq<byte>, after: seq<byte>, mem: seq<byte>, m: nat, upto: nat)
    requires Buffer(mid) && AgreeBelow(mid, after, m) && AgreeOn(after, mem, HEAD_LEN, upto) && m <= upto
    requires Buffer(after)
    ensures AgreeOn(mid, mem, HEAD_LEN, m)
  {
  }

  /** Questions one behind the other, each with a name that reads back whatever the header holds. */
  ghost predicate GoodQuestions(before: seq<byte>, after: seq<byte>, from: nat, upto: nat, l: seq<Dispatch.Question>)
    decreases |l|
  {
    if l == [] then Buffer(before) && after == before && upto == from <= MAX
    else exists mid: seq<byte>, m: nat :: GoodAsked(before, mid, after, from, m, upto, l)
  }

  ghost predicate GoodAsked(before: seq<byte>, mid: seq<byte>, after: seq<byte>, from: nat, m: nat, upto: nat,
                            l: seq<Dispatch.Question>)
    requires l != []
    decreases |l|, 0
  {
    var last := l[|l| - 1];
    && GoodQuestions(before, mid, from, m, l[..|l| - 1]) && Dispatch.Asks(mid, after, m, upto, last)
    && Good(mid, m, Dispatch.QuestionName(last))
  }

  /** A question so written is skipped exactly, and the packet in front of it is as it was. */
  lemma AskedIsFramed(before: seq<byte>, after: seq<byte>, from: nat, upto: nat, q: Dispatch.Question)
    requires Dispatch.Asks(before, after, from, upto, q) && Dispatch.QuestionOk(q)
    ensures SkipQuestion(after, from) == upto && AgreeBelow(before, after, from)
  {
    hide AppendFqdn, Size, U16At, Dispatch.QuestionName;
    var name := Dispatch.QuestionName(q);
    NameIsFramed(before, from, name);
    SkipNameFrame(AppendFqdn(before, from, name).mem, after, from);
    hide SkipName;
  }

  lemma {:induction false} QuestionsWalk(before: seq<byte>, after: seq<byte>, from: nat, upto: nat,
                                         l: seq<Dispatch.Question>)
    requires GoodQuestions(before, after, from, upto, l) && Dispatch.QuestionsOk(l)
    ensures Buffer(after) && from <= upto <= MAX && WalkQuestions(after, from, |l|) == upto
    decreases |l|
  {
    hide Dispatch.Asks, Good, SkipQuestion, Dispatch.QuestionOk;
    if l != [] {
      var mid, m :| GoodAsked(before, mid, after, from, m, upto, l);
      var front := l[..|l| - 1];
      QuestionsWalk(before, mid, from, m, front);
      AskedBounds(mid, after, m, upto, l[|l| - 1]);
      AskedIsFramed(mid, after, m, upto, l[|l| - 1]);
      hide GoodQuestions;
      WalkQuestionsFrame(mid, after, from, |front|);
      WalkQuestionsMore(after, from, |front|);
    }
  }

  lemma AskedBounds(before: seq<byte>, after: seq<byte>, from: nat, upto: nat, q: Dispatch.Question)
    requires Dispatch.Asks(before, after, from, upto, q)
    ensures Buffer(before) && Buffer(after) && from + 4 <= upto <= MAX
  {
  }

  /** Each question's name reads back from where the walk over the packet that is sent comes to it. */
  lemma {:induction false} NamesReadBack(before: seq<byte>, after: seq<byte>, from: nat, upto: nat,
                                         l: seq<Dispatch.Question>, mem: seq<byte>, k: nat)
    requires GoodQuestions(before, after, from, upto, l) && Dispatch.QuestionsOk(l) && HEAD_LEN <= from
    requires Buffer(mem) && AgreeOn(after, mem, HEAD_LEN, upto) && k < |l|
    ensures var at := WalkQuestions(mem, from, k);
            from <= at < upto && ReadsAs(mem, at, at, Dispatch.QuestionName(l[k]))
    decreases |l|
  {
    hide Dispatch.Asks, Good, ReadsAs, SkipQuestion, Dispatch.QuestionOk, Dispatch.QuestionName;
    var last, front := l[|l| - 1], l[..|l| - 1];
    var mid, m :| GoodAsked(before, mid, after, from, m, upto, l);
    QuestionsWalk(before, mid, from, m, front);
    AskedBounds(mid, after, m, upto, last);
    AskedIsFramed(mid, after, m, upto, last);
    hide GoodQuestions;
    Kept(mid, after, mem, m, upto);
    if k < |l| - 1 {
      NamesReadBack(before, mid, from, m, front, mem, k);
    } else {
      WalkQuestionsFrame(mid, mem, from, |front|);
      QuestionReadsBack(mid, after, m, upto, last, mem);
    }
  }

  /** One section of a packet that was laid out, in the buffer that is sent. */
  lemma SectionReadsBack(mem: seq<byte>, s: Dispatch.Stage, l: seq<Dispatch.Answer>, env: Dispatch.Env, k: nat)
    requires Dispatch.AnswersOk(l) && Dispatch.EnvOk(env) && Buffer(mem) && HEAD_LEN <= s.from
    requires GoodAll(s.before, s.after, s.from, s.upto, Dispatch.AllRecords(l, env)) && Dispatch.Keeps(mem, s)
    requires k < |Dispatch.AllRecords(l, env)|
    ensures var rs := Dispatch.AllRecords(l, env); var at := WalkRecords(mem, s.from, Dispatch.Kinds(rs[..k]));
            s.from <= at < s.upto && ReadsAs(mem, at, at, rs[k].owner)
  {
    hide Dispatch.AllRecords, Dispatch.EnvOk, Dispatch.AnswersOk, GoodAll, ReadsAs;
    Dispatch.AllLabelled(l, env);
    OwnersReadBack(s.before, s.after, s.from, s.upto, Dispatch.AllRecords(l, env), mem, k);
  }

  /** The names in front of the questions and records of a packet all took matches read without the header. */
  ghost predicate GoodNames(q: Dispatch.Stage, t: Dispatch.Sections, p: Dispatch.OutPacket, env: Dispatch.Env)
    requires Dispatch.PacketOk(p)
  {
    && GoodQuestions(q.before, q.after, q.from, q.upto, p.questions)
    && GoodSection(t.answers, p.answers, env) && GoodSection(t.servers, p.servers, env)
    && GoodSection(t.additional, p.additional, env)
  }

  ghost predicate GoodSection(s: Dispatch.Stage, l: seq<Dispatch.Answer>, env: Dispatch.Env)
    requires Dispatch.AnswersOk(l)
  {
    GoodAll(s.before, s.after, s.from, s.upto, Dispatch.AllRecords(l, env))
  }

  /** Every owner of a section reads back from where the walk comes to its record. */
  ghost predicate OwnersRead(mem: seq<byte>, from: nat, rs: seq<Record>)
    requires Buffer(mem)
  {
    forall k :: 0 <= k < |rs| ==> OwnerReads(mem, from, rs, k)
  }

  ghost predicate OwnerReads(mem: seq<byte>, from: nat, rs: seq<Record>, k: nat)
    requires Buffer(mem) && k < |rs|
  {
    var at := WalkRecords(mem, from, Dispatch.Kinds(rs[..k]));
    at >= 0 && ReadsAs(mem, at, at, rs[k].owner)
  }

  ghost predicate NameReads(mem: seq<byte>, l: seq<Dispatch.Question>, k: nat)
    requires Buffer(mem) && k < |l|
  {
    var at := WalkQuestions(mem, HEAD_LEN, k);
    at >= 0 && ReadsAs(mem, at, at, Dispatch.QuestionName(l[k]))
  }

  /** The packet that is sent: all its question and owner names read back, if their matches are as wanted. */
  lemma PacketReadsBack(mem: seq<byte>, index: nat, q: Dispatch.Stage, t: Dispatch.Sections,
                        p: Dispatch.OutPacket, env: Dispatch.Env)
    requires Dispatch.PacketOk(p) && Dispatch.EnvOk(env) && Buffer(mem)
    requires Dispatch.LaidOut(mem, index, q, t, p, env) && GoodNames(q, t, p, env)
    ensures forall k :: 0 <= k < |p.questions| ==> NameReads(mem, p.questions, k)
    ensures OwnersRead(mem, t.answers.from, Dispatch.AllRecords(p.answers, env))
    ensures OwnersRead(mem, t.servers.from, Dispatch.AllRecords(p.servers, env))
    ensures OwnersRead(mem, t.additional.from, Dispatch.AllRecords(p.additional, env))
  {
    hide GoodQuestions, Dispatch.AsksAll, Dispatch.QuestionOk, ReadsAs, Dispatch.SpelledAll;
    hide Dispatch.AllRecords, Dispatch.EnvOk, Dispatch.AnswersOk;
    StagesInOrder(mem, index, q, t, p, env);
    forall k | 0 <= k < |p.questions| ensures NameReads(mem, p.questions, k) {
      NamesReadBack(q.before, q.after, q.from, q.upto, p.questions, mem, k);
    }
    SectionReads(mem, t.answers, p.answers, env);
    SectionReads(mem, t.servers, p.servers, env);
    SectionReads(mem, t.additional, p.additional, env);
  }

  lemma SectionReads(mem: seq<byte>, s: Dispatch.Stage, l: seq<Dispatch.Answer>, env: Dispatch.Env)
    requires Dispatch.AnswersOk(l) && Dispatch.EnvOk(env) && Buffer(mem) && HEAD_LEN <= s.from
    requires GoodSection(s, l, env) && Dispatch.Keeps(mem, s)
    ensures OwnersRead(mem, s.from, Dispatch.AllRecords(l, env))
  {
    hide GoodAll, Dispatch.AllRecords, Dispatch.EnvOk, Dispatch.AnswersOk, ReadsAs, Dispatch.Keeps;
    var rs := Dispatch.AllRecords(l, env);
    forall k | 0 <= k < |rs| ensures OwnerReads(mem, s.from, rs, k) { SectionReadsBack(mem, s, l, env, k); }
  }

  lemma StagesInOrder(mem: seq<byte>, index: nat, q: Dispatch.Stage, t: Dispatch.Sections,
                      p: Dispatch.OutPacket, env: Dispatch.Env)
    requires Dispatch.PacketOk(p) && Dispatch.EnvOk(env) && Buffer(mem)
    requires Dispatch.LaidOut(mem, index, q, t, p, env) && GoodNames(q, t, p, env)
    ensures HEAD_LEN <= t.answers.from <= t.servers.from <= t.additional.from
  {
    hide GoodAll, GoodQuestions, Dispatch.SpelledAll, Dispatch.AsksAll, Dispatch.AllRecords;
    QuestionsWalk(q.before, q.after, q.from, q.upto, p.questions);
    Dispatch.AllLabelled(p.answers, env);
    Dispatch.AllLabelled(p.servers, env);
    Dispatch.SpelledWalks(t.answers.before, t.answers.after, t.answers.from, t.answers.upto,
                          Dispatch.AllRecords(p.answers, env));
    Dispatch.SpelledWalks(t.servers.before, t.servers.after, t.servers.from, t.servers.upto,
                          Dispatch.AllRecords(p.servers, env));
  }
}
