/**
 TXT data (section 6 of RFC 6763): the encoder of one entry, and the two-pass parser that first
 counts the items and then fills a table of that size.
 */
module Txt {
  import opened Bytes

  datatype Option<+T> = None | Some(value: T)

  /** `mdns_txt_linked_item_t`: a key with or without a value. */
  datatype Entry = Entry(key: text, value: Option<text>)

  /** `mdns_txt_item_t` and its value length: an absent value is a NULL pointer. */
  datatype Item = Item(key: text, value: Option<text>)

  // ---------------------------------------------------------------- encoding

  function EntryLen(e: Entry): nat {
    |e.key| + if e.value.Some? then 1 + |e.value.value| else 0
  }

  /** What `append_one_txt_record_entry` puts into the packet. */
  function EntryBytes(e: Entry): (r: seq<byte>)
    ensures |r| == 1 + EntryLen(e)
  {
    [EntryLen(e) % 0x100] + e.key + if e.value.Some? then [EQUALS] + e.value.value else []
  }

  function Encode(es: seq<Entry>): seq<byte> {
    if es == [] then [] else EntryBytes(es[0]) + Encode(es[1..])
  }

  // ---------------------------------------------------------------- parsing

  /** Number of items from offset `i` on, or -1 for data that ends inside an item. */
  function CountItems(data: seq<byte>, i: nat): (n: int)
    ensures -1 <= n
    decreases |data| - i
  {
    if i >= |data| || data[i] == 0 then 0
    else if i + 1 + data[i] > |data| then -1
    else
      var rest := CountItems(data, i + 1 + data[i]);
      if rest < 0 then -1 else 1 + rest
  }

  /** `_mdns_txt_items_count_get` */
  function Count(data: seq<byte>): int {
    if |data| == 1 then 0 else CountItems(data, 0)
  }

  /** The octets before the first '=' of an item, or all of it. */
  function KeyPrefix(item: seq<byte>): (n: nat)
    ensures n <= |item| && (n < |item| ==> item[n] == EQUALS)
    ensures forall i :: 0 <= i < n ==> item[i] != EQUALS
  {
    if item == [] || item[0] == EQUALS then 0 else 1 + KeyPrefix(item[1..])
  }

  /** `_mdns_txt_item_name_get_len`: -1 for an item without a key. */
  function KeyLen(item: seq<byte>): (n: int)
    requires item != []
    ensures -1 <= n <= |item| && n != 0
  {
    if item[0] == EQUALS then -1 else KeyPrefix(item)
  }

  /** One turn of the filling pass at offset `i`; `past` is where the item's octets end. */
  datatype Turn =
    | End
    | Overrun
    | Skip(past: nat)
    | Take(item: Item, past: nat, next: nat)

  function TurnAt(data: seq<byte>, i: nat): (t: Turn)
    ensures t.Skip? || t.Take? ==> i < t.past <= |data|
    ensures t.Take? ==> i < t.next && t.next == i + Stride(t.item)
  {
    if i >= |data| || data[i] == 0 then End
    else
      var part: nat := data[i];
      if i + 1 + part > |data| then Overrun
      else
        var n := KeyLen(data[i + 1..i + 1 + part]);
        if n < 0 then Skip(i + 1 + part)
        else
          var key := data[i + 1..i + 1 + n];
          if part > n + 1 then
            Take(Item(key, Some(data[i + n + 2..i + 1 + part])), i + 1 + part, i + 1 + part)
          else
            Take(Item(key, None), i + 1 + part, i + n + 2)
  }

  /** How far the filling pass moves for an item: always over a '=' behind the key. */
  function Stride(t: Item): nat {
    |t.key| + 2 + if t.value.Some? then |t.value.value| else 0
  }

  /** The filling pass from offset `i` on with `room` free entries; nothing if it runs off the data. */
  function Fill(data: seq<byte>, i: nat, room: nat): (r: Option<seq<Item>>)
    ensures r.Some? ==> |r.value| <= room
    decreases if i <= |data| then |data| - i else 0
  {
    match TurnAt(data, i)
    case End => Some([])
    case Overrun => None
    case Skip(past) => Fill(data, past, room)
    case Take(item, past, next) =>
      if room == 0 then Fill(data, past, room)
      else
        var rest := Fill(data, next, room - 1);
        if rest.None? then None else Some([item] + rest.value)
  }

  /** `_mdns_result_txt_create` */
  function Create(data: seq<byte>): seq<Item> {
    if Count(data) <= 0 then []
    else
      var filled := Fill(data, 0, Count(data));
      if filled.Some? then filled.value else []
  }

  method ItemsCountGet(data: array<byte>) returns (n: int)
    ensures n == Count(data[..])
  {
    if data.Length == 1 {
      return 0;
    }
    n := 0;
    var i := 0;
    while i < data.Length
      invariant 0 <= n
      invariant if CountItems(data[..], i) < 0 then Count(data[..]) == -1
                else Count(data[..]) == n + CountItems(data[..], i)
      decreases data.Length - i
    {
      var partLen := data[i];
      i := i + 1;
      if partLen == 0 {
        break;
      }
      if i + partLen > data.Length {
        return -1;
      }
      i := i + partLen;
      n := n + 1;
    }
  }

  method NameGetLen(data: array<byte>, at: nat, len: nat) returns (n: int)
    requires len > 0 && at + len <= data.Length
    ensures n == KeyLen(data[at..at + len])
  {
    if data[at] == EQUALS {
      return -1;
    }
    ghost var item := data[at..at + len];
    for i := 0 to len
      invariant forall j :: 0 <= j < i ==> item[j] != EQUALS
    {
      if data[at + i] == EQUALS {
        assert item[i] == EQUALS;
        return i;
      }
    }
    return len;
  }

  /** The body of the filling loop. */
  method TakeTurn(data: array<byte>, i: nat) returns (t: Turn)
    ensures t == TurnAt(data[..], i)
  {
    if i >= data.Length {
      return End;
    }
    ghost var d := data[..];
    var partLen: int := data[i];
    if partLen == 0 {
      return End;
    }
    if i + 1 + partLen > data.Length {
      return Overrun;
    }
    assert data[i + 1..i + 1 + partLen] == d[i + 1..i + 1 + partLen];
    var nameLen := NameGetLen(data, i + 1, partLen);
    if nameLen < 0 {
      return Skip(i + 1 + partLen);
    }
    var key := data[i + 1..i + 1 + nameLen];
    assert key == d[i + 1..i + 1 + nameLen];
    if partLen - nameLen - 1 > 0 {
      var value := data[i + nameLen + 2..i + 1 + partLen];
      assert value == d[i + nameLen + 2..i + 1 + partLen];
      return Take(Item(key, Some(value)), i + 1 + partLen, i + 1 + partLen);
    }
    return Take(Item(key, None), i + 1 + partLen, i + nameLen + 2);
  }

  method ResultTxtCreate(data: array<byte>) returns (txt: seq<Item>)
    ensures txt == Create(data[..])
  {
    hide TurnAt, CountItems, Fill;
    ghost var d := data[..];
    txt := [];
    var numItems := ItemsCountGet(data);
    if numItems <= 0 {
      return;
    }
    var i := 0;
    ghost var all := Fill(d, 0, numItems);
    assert all.Some? ==> [] + all.value == all.value;
    while true
      invariant |txt| <= numItems
      invariant Behind(txt, Fill(d, i, numItems - |txt|), all)
      decreases if i <= data.Length then data.Length - i else 0
    {
      FillTurn(d, i, numItems - |txt|);
      var turn := TakeTurn(data, i);
      match turn {
        case End =>
          assert txt + [] == txt;
          return;
        case Overrun =>
          return [];
        case Skip(past) =>
          i := past;
        case Take(item, past, next) =>
          if |txt| >= numItems {
            i := past;
          } else {
            OneBehind(txt, item, Fill(d, next, numItems - |txt| - 1), all);
            txt := txt + [item];
            i := next;
          }
      }
    }
  }

  /** What was taken and what the rest gives make the whole. */
  ghost predicate Behind(txt: seq<Item>, rest: Option<seq<Item>>, all: Option<seq<Item>>) {
    if rest.None? then all.None? else all == Some(txt + rest.value)
  }

  lemma OneBehind(txt: seq<Item>, item: Item, tail: Option<seq<Item>>, all: Option<seq<Item>>)
    requires Behind(txt, if tail.None? then None else Some([item] + tail.value), all)
    ensures Behind(txt + [item], tail, all)
  {
    var one: seq<Item> := [item];
    assert tail.Some? ==> txt + (one + tail.value) == (txt + one) + tail.value;
  }

  lemma FillTurn(data: seq<byte>, i: nat, room: nat)
    ensures Fill(data, i, room) ==
            match TurnAt(data, i)
            case End => Some([])
            case Overrun => None
            case Skip(past) => Fill(data, past, room)
            case Take(item, past, next) =>
              if room == 0 then Fill(data, past, room)
              else
                var rest := Fill(data, next, room - 1);
                if rest.None? then None else Some([item] + rest.value)
  {
  }

  // ---------------------------------------------------------------- the round trip

  /** Entries section 6 of RFC 6763 allows: a key without '=', and no more than 255 octets. */
  predicate Allowed(es: seq<Entry>) {
    forall i :: 0 <= i < |es| ==> AllowedEntry(es[i])
  }

  predicate AllowedEntry(e: Entry) {
    e.key != [] && NoEquals(e.key) && EntryLen(e) <= 255
  }

  predicate NoEquals(key: text) {
    forall i :: 0 <= i < |key| ==> key[i] != EQUALS
  }

  /** What the parser can return for an entry: an empty value is read as an absent one. */
  function Parsed(e: Entry): Item {
    Item(e.key, if e.value.Some? && e.value.value != [] then e.value else None)
  }

  function ParsedAll(es: seq<Entry>): (r: seq<Item>)
    ensures |r| == |es|
    ensures forall i :: 0 <= i < |es| ==> r[i] == Parsed(es[i])
  {
    if es == [] then [] else [Parsed(es[0])] + ParsedAll(es[1..])
  }

  /** Every entry in front of the last one has a '='. */
  predicate OnlyLastMayBeBare(es: seq<Entry>) {
    forall i :: 0 <= i < |es| - 1 ==> es[i].value.Some?
  }

  lemma Middle(pre: seq<byte>, first: seq<byte>, rest: seq<byte>)
    ensures pre + (first + rest) == (pre + first) + rest
    ensures (pre + (first + rest))[|pre|..|pre| + |first|] == first
    ensures first != [] ==> (pre + (first + rest))[|pre|] == first[0]
  {
  }

  /** Encoded data splits behind its first entry. */
  lemma SplitFirst(pre: seq<byte>, es: seq<Entry>)
    requires es != [] && Allowed(es)
    ensures var data := pre + Encode(es); var first := EntryBytes(es[0]);
            && data == (pre + first) + Encode(es[1..]) && |first| == 1 + EntryLen(es[0])
            && |pre| + |first| <= |data| && data[|pre|..|pre| + |first|] == first
            && data[|pre|] == EntryLen(es[0]) > 0
    ensures Allowed(es[1..])
  {
    EntryStart(es[0]);
    AllowedRest(es);
    hide EntryBytes, EntryLen;
    assert Encode(es) == EntryBytes(es[0]) + Encode(es[1..]);
    hide Encode;
    Middle(pre, EntryBytes(es[0]), Encode(es[1..]));
  }

  lemma AllowedRest(es: seq<Entry>)
    requires es != [] && Allowed(es)
    ensures AllowedEntry(es[0]) && Allowed(es[1..])
  {
    assert forall i :: 0 <= i < |es[1..]| ==> es[1..][i] == es[i + 1];
  }

  lemma EntryStart(e: Entry)
    ensures |EntryBytes(e)| == 1 + EntryLen(e)
    ensures AllowedEntry(e) ==> EntryBytes(e)[0] == EntryLen(e) > 0
  {
  }

  lemma CountStep(data: seq<byte>, i: nat)
    requires i < |data| && 0 < data[i] && i + 1 + data[i] <= |data|
    ensures var rest := CountItems(data, i + 1 + data[i]);
            CountItems(data, i) == if rest < 0 then -1 else 1 + rest
  {
  }

  /** The counting pass is right for every list of entries. */
  lemma {:induction false} CountsEntries(pre: seq<byte>, es: seq<Entry>)
    requires Allowed(es)
    ensures CountItems(pre + Encode(es), |pre|) == |es|
    decreases |es|
  {
    hide EntryBytes, EntryLen, TurnAt;
    if es == [] {
      assert pre + Encode(es) == pre;
    } else {
      SplitFirst(pre, es);
      CountStep(pre + Encode(es), |pre|);
      hide Encode, Allowed, CountItems;
      CountsEntries(pre + EntryBytes(es[0]), es[1..]);
    }
  }

  lemma {:induction false} KeyPrefixIs(item: seq<byte>, n: nat)
    requires n <= |item| && (n < |item| ==> item[n] == EQUALS)
    requires forall i :: 0 <= i < n ==> item[i] != EQUALS
    ensures KeyPrefix(item) == n
  {
    if n > 0 {
      assert forall i :: 0 <= i < n - 1 ==> item[1..][i] == item[i + 1];
      KeyPrefixIs(item[1..], n - 1);
    }
  }

  /** The key and the value inside the octets of an entry. */
  lemma EntryParts(e: Entry)
    requires e.key != [] && NoEquals(e.key)
    ensures var item := EntryBytes(e)[1..];
            && |item| == EntryLen(e) && item != [] && KeyLen(item) == |e.key| && item[..|e.key|] == e.key
            && (e.value.Some? ==> item[|e.key| + 1..] == e.value.value && EntryLen(e) == |e.key| + 1 + |e.value.value|)
            && (e.value.None? ==> EntryLen(e) == |e.key|)
  {
    var item := EntryBytes(e)[1..];
    assert item[..|e.key|] == e.key;
    forall i | 0 <= i < |e.key| ensures item[i] != EQUALS {
      assert item[i] == e.key[i];
    }
    KeyPrefixIs(item, |e.key|);
  }

  /** The item at the front of encoded data. */
  lemma FirstItem(pre: seq<byte>, es: seq<Entry>)
    requires es != [] && Allowed(es)
    ensures var e := es[0]; var past := |pre| + |EntryBytes(e)|;
            TurnAt(pre + Encode(es), |pre|) == Take(Parsed(e), past, past + if e.value.Some? then 0 else 1)
  {
    hide EntryBytes, EntryLen, Encode, KeyLen, KeyPrefix;
    var data := pre + Encode(es);
    var e := es[0];
    var i := |pre|;
    SplitFirst(pre, es);
    assert AllowedEntry(e);
    EntryParts(e);
    var item := EntryBytes(e)[1..];
    assert data[i + 1..i + 1 + EntryLen(e)] == item;
    assert data[i + 1..i + 1 + |e.key|] == item[..|e.key|];
    if e.value.Some? {
      assert data[i + |e.key| + 2..i + 1 + EntryLen(e)] == item[|e.key| + 1..];
    }
  }

  lemma EndOf(data: seq<byte>, i: nat)
    requires i >= |data|
    ensures TurnAt(data, i) == End
  {
  }

  /** Values everywhere but at the end: the filling pass returns the entries. */
  lemma {:induction false} FillsEntries(pre: seq<byte>, es: seq<Entry>)
    requires Allowed(es) && OnlyLastMayBeBare(es)
    ensures Fill(pre + Encode(es), |pre|, |es|) == Some(ParsedAll(es))
    decreases |es|
  {
    hide EntryBytes, EntryLen, TurnAt;
    if es == [] {
      EndOf(pre + Encode(es), |pre|);
    } else {
      FirstItem(pre, es);
      SplitFirst(pre, es);
      if es[0].value.Some? {
        FillsEntries(pre + EntryBytes(es[0]), es[1..]);
      } else {
        assert |es| == 1 && Encode(es[1..]) == [];
        assert ParsedAll(es[1..]) == [];
        EndOf(pre + Encode(es), |pre| + |EntryBytes(es[0])| + 1);
      }
    }
  }

  /** Octets the items occupy at the very least: behind the last key there need not be a '='. */
  function Need(ts: seq<Item>): nat
    requires ts != []
  {
    if |ts| == 1 then
      1 + |ts[0].key| + if ts[0].value.Some? then 1 + |ts[0].value.value| else 0
    else Stride(ts[0]) + Need(ts[1..])
  }

  /**
   The filling pass cannot return items that need more octets than there are; and an item without
   a value cannot take the '=' that ends the data for its key.
   */
  lemma {:induction false} FillNeeds(data: seq<byte>, i: nat, room: nat, ts: seq<Item>)
    requires Fill(data, i, room) == Some(ts) && ts != []
    requires forall i :: 0 <= i < |ts| ==> NoEquals(ts[i].key)
    ensures i + Need(ts) <= |data|
    ensures data[|data| - 1] == EQUALS && ts[|ts| - 1].value.None? ==> i + Need(ts) < |data|
    decreases if i <= |data| then |data| - i else 0
  {
    hide TurnAt, EntryLen;
    match TurnAt(data, i)
    case Skip(past) => FillNeeds(data, past, room, ts);
    case Take(item, past, next) =>
      TakeNeeds(data, i);
      var rest := Fill(data, next, room - 1);
      assert ts[1..] == rest.value && ts[0] == item;
      assert NoEquals(item.key);
      if |ts| > 1 {
        FillNeeds(data, next, room - 1, ts[1..]);
      }
  }

  lemma TakeNeeds(data: seq<byte>, i: nat)
    requires TurnAt(data, i).Take?
    ensures var item := TurnAt(data, i).item;
            && i + Need([item]) <= |data|
            && (data[|data| - 1] == EQUALS && item.value.None? && NoEquals(item.key) ==> i + Need([item]) < |data|)
  {
    var item := TurnAt(data, i).item;
    if item.value.None? && i + Need([item]) == |data| {
      assert item.key[|item.key| - 1] == data[|data| - 1];
    }
  }

  /** Encoded entries offer no more than that, unless the last one ends in an empty value. */
  lemma {:induction false} EncodeOffers(es: seq<Entry>)
    requires es != [] && Allowed(es)
    ensures Encode(es) != []
    ensures var t := ParsedAll(es); var last := es[|es| - 1];
            if last.value == Some([]) then
              |Encode(es)| <= Need(t) + 1 && Encode(es)[|Encode(es)| - 1] == EQUALS
            else |Encode(es)| <= Need(t)
    decreases |es|
  {
    var rest := es[1..];
    ParsedFirst(es);
    assert AllowedEntry(es[0]);
    if rest == [] {
      OfferOne(es[0]);
      assert Encode(es) == EntryBytes(es[0]);
    } else {
      assert rest[|rest| - 1] == es[|es| - 1];
      EncodeOffers(rest);
      assert Encode(es)[|Encode(es)| - 1] == Encode(rest)[|Encode(rest)| - 1];
      hide EntryBytes, ParsedAll, Allowed;
      assert |EntryBytes(es[0])| <= Stride(Parsed(es[0])) by { OfferOne(es[0]); }
    }
  }

  lemma OfferOne(e: Entry)
    requires AllowedEntry(e)
    ensures var b := EntryBytes(e); var t := Parsed(e);
            var n := 1 + |t.key| + if t.value.Some? then 1 + |t.value.value| else 0;
            && b != [] && |b| <= Stride(t)
            && if e.value == Some([]) then |b| <= n + 1 && b[|b| - 1] == EQUALS else |b| <= n
  {
  }

  /** Once the filling pass is out of step it cannot return the remaining entries. */
  lemma OutOfStep(pre: seq<byte>, es: seq<Entry>, shift: nat)
    requires es != [] && Allowed(es) && shift > 0
    ensures Fill(pre + Encode(es), |pre| + shift, |es|) != Some(ParsedAll(es))
  {
    hide Encode, Fill, Need;
    var data := pre + Encode(es);
    var ts := ParsedAll(es);
    if Fill(data, |pre| + shift, |es|) == Some(ts) {
      forall i | 0 <= i < |ts| ensures NoEquals(ts[i].key) {
        assert AllowedEntry(es[i]);
      }
      EncodeOffers(es);
      assert data[|data| - 1] == Encode(es)[|Encode(es)| - 1];
      assert ts[|ts| - 1] == Parsed(es[|es| - 1]);
      FillNeeds(data, |pre| + shift, |es|, ts);
    }
  }

  /** A bare entry in front of another one puts the filling pass out of step. */
  lemma {:induction false} BareInFront(pre: seq<byte>, es: seq<Entry>)
    requires Allowed(es) && !OnlyLastMayBeBare(es)
    ensures Fill(pre + Encode(es), |pre|, |es|) != Some(ParsedAll(es))
    decreases |es|
  {
    hide EntryBytes, EntryLen, TurnAt, Encode, Fill, ParsedAll, Allowed;
    FirstItem(pre, es);
    SplitFirst(pre, es);
    var first := EntryBytes(es[0]);
    var past := |pre + first|;
    var next := past + if es[0].value.Some? then 0 else 1;
    if es[0].value.Some? {
      BareBehind(es);
      BareInFront(pre + first, es[1..]);
    } else {
      OutOfStep(pre + first, es[1..], 1);
    }
    ParsedFirst(es);
    StaysWrong(pre + Encode(es), |pre|, |es|, Parsed(es[0]), past, next, ParsedAll(es));
  }

  lemma BareBehind(es: seq<Entry>)
    requires es != [] && es[0].value.Some? && !OnlyLastMayBeBare(es)
    ensures !OnlyLastMayBeBare(es[1..])
  {
    var i :| 0 <= i < |es| - 1 && es[i].value.None?;
    assert es[1..][i - 1].value.None?;
  }

  lemma ParsedFirst(es: seq<Entry>)
    requires es != []
    ensures |ParsedAll(es)| == |es| && ParsedAll(es)[0] == Parsed(es[0]) && ParsedAll(es)[1..] == ParsedAll(es[1..])
  {
  }

  /** What is missed behind an entry is missed. */
  lemma StaysWrong(data: seq<byte>, i: nat, n: nat, item: Item, past: nat, next: nat, ts: seq<Item>)
    requires n > 0 && ts != [] && TurnAt(data, i) == Take(item, past, next)
    requires past <= next && Fill(data, next, n - 1) != Some(ts[1..])
    ensures Fill(data, i, n) != Some(ts)
  {
    var rest := Fill(data, next, n - 1);
    hide TurnAt;
    if rest.Some? {
      var one: seq<Item> := [item];
      assert (one + rest.value)[1..] == rest.value;
    }
  }

  /**
   The TXT round trip: for allowed entries the counting pass always finds their number, and the
   parser returns the entries in order, empty values read as absent, if and only if no entry in
   front of the last one lacks a value.  (The filling pass steps over the '=' behind every key,
   also behind a key that has none.)
   */
  lemma TxtRoundTrip(es: seq<Entry>)
    requires Allowed(es)
    ensures Count(Encode(es)) == |es|
    ensures Create(Encode(es)) == ParsedAll(es) <==> OnlyLastMayBeBare(es)
  {
    assert [] + Encode(es) == Encode(es);
    CountsEntries([], es);
    if es == [] {
      NoTxt();
    } else {
      TwoOctets(es);
      hide Encode, Fill, ParsedAll, Allowed, CountItems, OnlyLastMayBeBare;
      if OnlyLastMayBeBare(es) {
        FillsEntries([], es);
      } else {
        BareInFront([], es);
      }
    }
  }

  lemma NoTxt()
    ensures Count(Encode([])) == 0 && Create(Encode([])) == ParsedAll([]) && OnlyLastMayBeBare([])
  {
  }

  lemma TwoOctets(es: seq<Entry>)
    requires es != [] && Allowed(es)
    ensures |Encode(es)| >= 2
  {
    assert AllowedEntry(es[0]);
  }

  lemma BareTurns(data: seq<byte>)
    requires data == [1, 0x61, 3, 0x62, EQUALS, 0x63]
    ensures TurnAt(data, 0) == Take(Item([0x61], None), 2, 3)
    ensures TurnAt(data, 3) == Overrun
  {
    assert data[1..2] == [0x61];
    KeyPrefixIs(data[1..2], 1);
  }

  lemma BareBytes(es: seq<Entry>)
    requires es == [Entry([0x61], None), Entry([0x62], Some([0x63]))]
    ensures Encode(es) == [1, 0x61, 3, 0x62, EQUALS, 0x63]
    ensures Allowed(es)
  {
    assert es[1..] == [es[1]] && es[1..][1..] == [];
    assert Encode(es[1..]) == EntryBytes(es[1]) + Encode([]);
    assert AllowedEntry(es[0]) && AllowedEntry(es[1]);
  }

  /** A bare key "a" in front of "b=c": nothing at all is returned. */
  lemma BareEntryLosesAll(es: seq<Entry>)
    requires es == [Entry([0x61], None), Entry([0x62], Some([0x63]))]
    ensures Count(Encode(es)) == 2 && Create(Encode(es)) == []
  {
    hide TurnAt, Encode, Allowed, CountItems;
    BareBytes(es);
    TxtRoundTrip(es);
    BareTurns(Encode(es));
    assert Fill(Encode(es), 3, 1) == None;
  }
}
