/**
 The results of a running PTR search, as records come in: how many there are, which they are, and how
 long they live.
 */
module PtrSearch {
  import opened Bytes
  import opened Txt

  /** `mdns_result_t`; `link` stands for its interface and IP protocol. */
  datatype Result = Result(link: nat, instance: text, hostname: Option<text>, port: nat,
                           txt: seq<Item>, addresses: seq<text>, ttl: nat)

  /** `mdns_search_once_t` of a PTR search; the newest result comes first. */
  datatype Search = Search(maxResults: nat, numResults: nat, results: seq<Result>)

  /** A record that the parser hands to the search. */
  datatype Record = Ptr(link: nat, instance: text, ttl: nat)
                  | Srv(link: nat, instance: text, ttl: nat, target: text, port: nat)
                  | TxtData(link: nat, instance: text, ttl: nat, items: seq<Item>)
                  | Address(link: nat, host: text, ttl: nat, address: text)

  // ---------------------------------------------------------------- one record

  /** The result has that non-empty instance name, up to case. */
  predicate SameInstance(r: Result, link: nat, instance: text) {
    r.link == link && r.instance != [] && CaseEq(instance, r.instance)
  }

  predicate Exactly(r: Result, link: nat, instance: text) {
    r.link == link && r.instance == instance
  }

  predicate AtHost(r: Result, link: nat, host: text) {
    r.link == link && r.hostname.Some? && r.hostname.value != [] && CaseEq(host, r.hostname.value)
  }

  /** The first result with that instance name up to case, or the number of results. */
  function FindInstance(l: seq<Result>, link: nat, instance: text): (i: nat)
    ensures i <= |l| && (i < |l| ==> SameInstance(l[i], link, instance))
    ensures forall k :: 0 <= k < i ==> !SameInstance(l[k], link, instance)
  {
    if l == [] || SameInstance(l[0], link, instance) then 0 else FindInstance(l[1..], link, instance) + 1
  }

  function FindExactly(l: seq<Result>, link: nat, instance: text): (i: nat)
    ensures i <= |l| && (i < |l| ==> Exactly(l[i], link, instance))
    ensures forall k :: 0 <= k < i ==> !Exactly(l[k], link, instance)
  {
    if l == [] || Exactly(l[0], link, instance) then 0 else FindExactly(l[1..], link, instance) + 1
  }

  function FindHost(l: seq<Result>, link: nat, host: text): (i: nat)
    ensures i <= |l| && (i < |l| ==> AtHost(l[i], link, host))
    ensures forall k :: 0 <= k < i ==> !AtHost(l[k], link, host)
  {
    if l == [] || AtHost(l[0], link, host) then 0 else FindHost(l[1..], link, host) + 1
  }

  function Lower2(a: nat, b: nat): nat {
    if a < b then a else b
  }

  /** `_mdns_result_update_ttl` */
  function Shorten(l: seq<Result>, i: nat, ttl: nat): seq<Result>
    requires i < |l|
  {
    l[i := l[i].(ttl := Lower2(l[i].ttl, ttl))]
  }

  predicate HasRoom(s: Search) {
    s.maxResults == 0 || s.numResults < s.maxResults
  }

  function Fresh(link: nat, instance: text, ttl: nat): Result {
    Result(link, instance, None, 0, [], [], ttl)
  }

  /** `_mdns_search_result_add_ptr`: the search and the index of the result, past the end if there is none. */
  function AddPtr(s: Search, link: nat, instance: text, ttl: nat): (Search, nat) {
    var i := FindInstance(s.results, link, instance);
    if i < |s.results| then (s.(results := Shorten(s.results, i, ttl)), i)
    else if HasRoom(s) then
      (s.(results := [Fresh(link, instance, ttl)] + s.results, numResults := s.numResults + 1), 0)
    else (s, |s.results|)
  }

  /** The result that SRV and TXT records are for: the one of exactly that name, or as for PTR. */
  function Locate(s: Search, link: nat, instance: text, ttl: nat): (Search, nat) {
    var i := FindExactly(s.results, link, instance);
    if i < |s.results| then (s, i) else AddPtr(s, link, instance, ttl)
  }

  function AddAddress(addresses: seq<text>, address: text): seq<text> {
    if address in addresses then addresses else [address] + addresses
  }

  function Receive(s: Search, rec: Record): Search {
    match rec
    case Ptr(link, instance, ttl) => AddPtr(s, link, instance, ttl).0
    case Srv(link, instance, ttl, target, port) =>
      var (t, i) := Locate(s, link, instance, ttl);
      if i < |t.results| && t.results[i].hostname.None? then
        t.(results := t.results[i := t.results[i].(port := port, hostname := Some(target))])
      else t
    case TxtData(link, instance, ttl, items) =>
      var (t, i) := Locate(s, link, instance, ttl);
      if i < |t.results| && t.results[i].txt == [] then
        t.(results := t.results[i := t.results[i].(txt := items)])
      else t
    case Address(link, host, ttl, address) =>
      var i := FindHost(s.results, link, host);
      if i < |s.results| then
        var r := s.results[i];
        s.(results := Shorten(s.results[i := r.(addresses := AddAddress(r.addresses, address))], i, ttl))
      else s
  }

  function ReceiveAll(s: Search, recs: seq<Record>): Search {
    if recs == [] then s else Receive(ReceiveAll(s, recs[..|recs| - 1]), recs[|recs| - 1])
  }

  // ---------------------------------------------------------------- what every run keeps

  /** On one link no two results share a non-empty instance name, up to case. */
  predicate Unique(l: seq<Result>) {
    forall i, j :: 0 <= i < j < |l| ==> !SameInstance(l[i], l[j].link, l[j].instance)
  }

  predicate Inv(s: Search) {
    s.numResults == |s.results| && (s.maxResults > 0 ==> s.numResults <= s.maxResults) && Unique(s.results)
  }

  /** The results differ in data that is no part of their names. */
  predicate SameNames(l: seq<Result>, r: seq<Result>) {
    |r| == |l| && forall i :: 0 <= i < |l| ==> r[i].link == l[i].link && r[i].instance == l[i].instance
  }

  lemma SameNamesUnique(l: seq<Result>, r: seq<Result>)
    requires SameNames(l, r) && Unique(l)
    ensures Unique(r)
  {
    forall i, j | 0 <= i < j < |r| ensures !SameInstance(r[i], r[j].link, r[j].instance) {
      assert !SameInstance(l[i], l[j].link, l[j].instance);
    }
  }

  lemma AddPtrKeeps(s: Search, link: nat, instance: text, ttl: nat)
    requires Inv(s)
    ensures var (t, i) := AddPtr(s, link, instance, ttl);
            Inv(t) && t.maxResults == s.maxResults && i <= |t.results|
            && (SameNames(s.results, t.results) || (t.results == [Fresh(link, instance, ttl)] + s.results && i == 0))
  {
    hide CaseEq;
    var (t, i) := AddPtr(s, link, instance, ttl);
    if FindInstance(s.results, link, instance) < |s.results| { SameNamesUnique(s.results, t.results); }
    else if HasRoom(s) {
      forall a, b | 0 <= a < b < |t.results|
        ensures !SameInstance(t.results[a], t.results[b].link, t.results[b].instance)
      {
        if a > 0 { assert !SameInstance(s.results[a - 1], s.results[b - 1].link, s.results[b - 1].instance); }
        else { FlipInstance(t.results[0], s.results[b - 1]); }
      }
    }
  }

  /** Whether two results share a name is the same seen from either, when both have one. */
  lemma FlipInstance(a: Result, b: Result)
    requires !SameInstance(b, a.link, a.instance)
    ensures b.instance != [] ==> !SameInstance(a, b.link, b.instance)
    ensures b.instance == [] ==> !SameInstance(a, b.link, b.instance)
  {
  }

  lemma ReceiveKeeps(s: Search, rec: Record)
    requires Inv(s)
    ensures Inv(Receive(s, rec)) && Receive(s, rec).maxResults == s.maxResults
  {
    hide Unique, SameNames, AddPtr, HasRoom, Receive;
    if rec.Address? {
      AddressKeepsNames(s, rec);
      SameNamesUnique(s.results, Receive(s, rec).results);
    } else {
      AddPtrKeeps(s, rec.link, rec.instance, rec.ttl);
      if rec.Ptr? { PtrIsAdded(s, rec); }
      else {
        RestKeepsNames(s, rec);
        SameNamesUnique(Locate(s, rec.link, rec.instance, rec.ttl).0.results, Receive(s, rec).results);
      }
    }
  }

  lemma PtrIsAdded(s: Search, rec: Record)
    requires rec.Ptr?
    ensures Receive(s, rec) == AddPtr(s, rec.link, rec.instance, rec.ttl).0
  {
  }

  lemma AddressKeepsNames(s: Search, rec: Record)
    requires rec.Address?
    ensures var r := Receive(s, rec);
            && SameNames(s.results, r.results) && |r.results| == |s.results|
            && r.numResults == s.numResults && r.maxResults == s.maxResults
  {
    hide AtHost, AddAddress;
  }

  lemma RestKeepsNames(s: Search, rec: Record)
    requires rec.Srv? || rec.TxtData?
    ensures var t, r := Locate(s, rec.link, rec.instance, rec.ttl).0, Receive(s, rec);
            && SameNames(t.results, r.results) && |r.results| == |t.results|
            && r.numResults == t.numResults && r.maxResults == t.maxResults
  {
    hide Locate;
  }

  /** The count is the length of the list, within the cap, and instance names stay unique, whatever comes in. */
  lemma {:induction false} EverySearch(s: Search, recs: seq<Record>)
    requires Inv(s)
    ensures Inv(ReceiveAll(s, recs)) && ReceiveAll(s, recs).maxResults == s.maxResults
  {
    hide Inv, Receive;
    if recs != [] {
      EverySearch(s, recs[..|recs| - 1]);
      ReceiveKeeps(ReceiveAll(s, recs[..|recs| - 1]), recs[|recs| - 1]);
    }
  }

  // ---------------------------------------------------------------- how long a result lives

  /**
   * The result, counted from the oldest, into whose lifetime the record enters. A PTR record enters
   * into that of its instance, or opens a new one; an SRV or TXT record only if no result has its
   * name letter by letter; an address record into that of the newest result at its host.
   */
  function Enters(s: Search, rec: Record): Option<nat> {
    var n := |s.results|;
    if rec.Address? then
      var i := FindHost(s.results, rec.link, rec.host);
      if i < n then Some(n - 1 - i) else None
    else if !rec.Ptr? && FindExactly(s.results, rec.link, rec.instance) < n then None
    else
      var i := FindInstance(s.results, rec.link, rec.instance);
      if i < n then Some(n - 1 - i) else if HasRoom(s) then Some(n) else None
  }

  /** The lifetimes that entered into the `k`-th oldest result. */
  function Lifetimes(s: Search, recs: seq<Record>, k: nat): seq<nat> {
    if recs == [] then []
    else
      var before, rec := recs[..|recs| - 1], recs[|recs| - 1];
      Lifetimes(s, before, k) + (if Enters(ReceiveAll(s, before), rec) == Some(k) then [rec.ttl] else [])
  }

  predicate IsLeast(ttl: nat, l: seq<nat>) {
    (exists i :: 0 <= i < |l| && l[i] == ttl) && (forall i :: 0 <= i < |l| ==> ttl <= l[i])
  }

  function Oldest(l: seq<Result>, k: nat): Result
    requires k < |l|
  {
    l[|l| - 1 - k]
  }

  lemma LeastMore(ttl: nat, l: seq<nat>, more: nat)
    ensures IsLeast(ttl, l) ==> IsLeast(Lower2(ttl, more), l + [more])
    ensures l == [] ==> IsLeast(more, l + [more])
  {
    if IsLeast(ttl, l) {
      var r := l + [more];
      if ttl < more {
        var i :| 0 <= i < |l| && l[i] == ttl;
        assert r[i] == ttl;
      } else { assert r[|l|] == more; }
    }
    if l == [] { assert (l + [more])[0] == more; }
  }

  /** From `l` to `r` a lifetime has entered into the result `e`, counted from the oldest, or opened a new one. */
  predicate Entered(l: seq<Result>, r: seq<Result>, e: Option<nat>, ttl: nat, k: nat) {
    && |r| == (if e == Some(|l|) then |l| + 1 else |l|)
    && (k == |l| < |r| ==> Oldest(r, k).ttl == ttl)
    && (k < |l| ==> && Oldest(r, k).ttl == (if e == Some(k) then Lower2(Oldest(l, k).ttl, ttl) else Oldest(l, k).ttl)
                    && Oldest(r, k).link == Oldest(l, k).link && Oldest(r, k).instance == Oldest(l, k).instance)
  }

  /** One record and the lifetime of one result. */
  lemma ReceiveTtl(s: Search, rec: Record, k: nat)
    requires k < |Receive(s, rec).results|
    ensures Entered(s.results, Receive(s, rec).results, Enters(s, rec), rec.ttl, k)
  {
    hide Entered, Receive, Enters, AddPtr, Locate;
    if rec.Address? { AddressTtl(s, rec, k); }
    else {
      AddPtrTtl(s, rec.link, rec.instance, rec.ttl, k);
      if rec.Ptr? { PtrIsAdded(s, rec); }
      else {
        RestKeepsTtl(s, rec);
        LocateTtl(s, rec, k);
        var t := Locate(s, rec.link, rec.instance, rec.ttl).0.results;
        EnteredOn(s.results, t, Receive(s, rec).results, Enters(s, rec), rec.ttl, k);
      }
    }
  }

  lemma EnteredOn(l: seq<Result>, t: seq<Result>, r: seq<Result>, e: Option<nat>, ttl: nat, k: nat)
    requires Entered(l, t, e, ttl, k) && SameTtls(t, r)
    ensures Entered(l, r, e, ttl, k)
  {
  }

  predicate SameTtls(l: seq<Result>, r: seq<Result>) {
    SameNames(l, r) && forall i :: 0 <= i < |l| ==> r[i].ttl == l[i].ttl
  }

  lemma AddressTtl(s: Search, rec: Record, k: nat)
    requires rec.Address?
    ensures Entered(s.results, Receive(s, rec).results, Enters(s, rec), rec.ttl, k)
  {
    hide AtHost, AddAddress, FindInstance, FindExactly, HasRoom;
  }

  lemma LocateTtl(s: Search, rec: Record, k: nat)
    requires rec.Srv? || rec.TxtData?
    requires Entered(s.results, AddPtr(s, rec.link, rec.instance, rec.ttl).0.results,
                     Enters(s, Ptr(rec.link, rec.instance, rec.ttl)), rec.ttl, k)
    ensures Entered(s.results, Locate(s, rec.link, rec.instance, rec.ttl).0.results, Enters(s, rec), rec.ttl, k)
  {
    hide AddPtr, FindInstance, HasRoom;
    if FindExactly(s.results, rec.link, rec.instance) == |s.results| { hide Entered; }
  }

  lemma AddPtrTtl(s: Search, link: nat, instance: text, ttl: nat, k: nat)
    ensures Entered(s.results, AddPtr(s, link, instance, ttl).0.results, Enters(s, Ptr(link, instance, ttl)), ttl, k)
  {
    hide SameInstance;
  }

  /** Behind the look-up a record leaves names and lifetimes alone. */
  lemma RestKeepsTtl(s: Search, rec: Record)
    requires rec.Srv? || rec.TxtData?
    ensures SameTtls(Locate(s, rec.link, rec.instance, rec.ttl).0.results, Receive(s, rec).results)
  {
    hide Locate;
  }

  lemma {:induction false} NotYet(s: Search, recs: seq<Record>, k: nat)
    requires s.results == [] && k >= |ReceiveAll(s, recs).results|
    ensures Lifetimes(s, recs, k) == []
  {
    if recs != [] {
      var before := recs[..|recs| - 1];
      hide Receive;
      ReceiveSize(ReceiveAll(s, before), recs[|recs| - 1]);
      NotYet(s, before, k);
    }
  }

  lemma ReceiveSize(s: Search, rec: Record)
    ensures var n := |s.results|; |Receive(s, rec).results| == if Enters(s, rec) == Some(n) then n + 1 else n
    ensures Enters(s, rec).Some? ==> Enters(s, rec).value < |Receive(s, rec).results|
  {
  }

  /** The lifetime of each result is the least of those that entered into it. */
  lemma {:induction false} TtlIsLeast(s: Search, recs: seq<Record>, k: nat)
    requires s.results == [] && k < |ReceiveAll(s, recs).results|
    ensures IsLeast(Oldest(ReceiveAll(s, recs).results, k).ttl, Lifetimes(s, recs, k))
  {
    if recs != [] {
      var before, rec := recs[..|recs| - 1], recs[|recs| - 1];
      var t := ReceiveAll(s, before);
      hide Receive, Enters, IsLeast;
      ReceiveTtl(t, rec, k);
      if k < |t.results| {
        TtlIsLeast(s, before, k);
        LeastMore(Oldest(t.results, k).ttl, Lifetimes(s, before, k), rec.ttl);
        assert Lifetimes(s, before, k) + [] == Lifetimes(s, before, k);
      } else {
        NotYet(s, before, k);
        LeastMore(0, [], rec.ttl);
        assert [] + [rec.ttl] == [rec.ttl];
      }
    }
  }

  /** A PTR record with an instance name never lengthens the life of the result it is about. */
  lemma PtrEnters(s: Search, link: nat, instance: text, ttl: nat)
    requires Inv(s) && instance != []
    ensures forall i :: 0 <= i < |s.results| && SameInstance(s.results[i], link, instance) ==>
              Enters(s, Ptr(link, instance, ttl)) == Some(|s.results| - 1 - i)
  {
    forall i | 0 <= i < |s.results| && SameInstance(s.results[i], link, instance)
      ensures FindInstance(s.results, link, instance) == i
    {
      var j := FindInstance(s.results, link, instance);
      if j < i {
        CaseEqTrans(s.results[i].instance, instance, s.results[j].instance);
        assert SameInstance(s.results[j], s.results[i].link, s.results[i].instance);
      }
    }
  }

  lemma CaseEqTrans(a: text, b: text, c: text)
    requires CaseEq(b, a) && CaseEq(b, c)
    ensures CaseEq(a, c)
  {
    forall i | 0 <= i < |a| ensures Lower(a[i]) == Lower(c[i]) {
      assert Lower(b[i]) == Lower(a[i]) && Lower(b[i]) == Lower(c[i]);
    }
  }

  /** Without an instance name every record opens a result of its own. */
  lemma NamelessAreNotMerged(s: Search, link: nat, ttl: nat)
    requires HasRoom(s)
    ensures |Receive(s, Ptr(link, [], ttl)).results| == |s.results| + 1
  {
    forall k | 0 <= k < |s.results| ensures !SameInstance(s.results[k], link, []) {}
  }

  // ---------------------------------------------------------------- what a result holds

  /**
   The result, counted from the oldest, that a record is about: an SRV or TXT record is about the one that
   has its name letter by letter, or else about the one a PTR record would be about; an address about the
   newest one at its host.
   */
  function Meant(s: Search, rec: Record): Option<nat> {
    var n := |s.results|;
    if !rec.Address? && !rec.Ptr? && FindExactly(s.results, rec.link, rec.instance) < n then
      Some(n - 1 - FindExactly(s.results, rec.link, rec.instance))
    else Enters(s, rec)
  }

  /** The records about the `k`-th oldest result, in the order they came. */
  function About(s: Search, recs: seq<Record>, k: nat): seq<Record> {
    if recs == [] then []
    else
      var before, rec := recs[..|recs| - 1], recs[|recs| - 1];
      About(s, before, k) + (if Meant(ReceiveAll(s, before), rec) == Some(k) then [rec] else [])
  }

  /** Host and port of a result are those of the first SRV record about it; before one there are none. */
  predicate HasHost(hostname: Option<text>, port: nat, l: seq<Record>) {
    if hostname.None? then port == 0 && forall i :: 0 <= i < |l| ==> !l[i].Srv?
    else exists i :: 0 <= i < |l| && l[i].Srv? && Some(l[i].target) == hostname && l[i].port == port
                     && forall j :: 0 <= j < i ==> !l[j].Srv?
  }

  /** Its items are those of the first TXT record about it that has any. */
  predicate HasItems(txt: seq<Item>, l: seq<Record>) {
    if txt == [] then forall i :: 0 <= i < |l| ==> !(l[i].TxtData? && l[i].items != [])
    else exists i :: 0 <= i < |l| && l[i].TxtData? && l[i].items == txt
                     && forall j :: 0 <= j < i ==> !(l[j].TxtData? && l[j].items != [])
  }

  /** Its addresses are those of the address records about it, none twice. */
  predicate HasAddresses(addresses: seq<text>, l: seq<Record>) {
    && (forall i :: 0 <= i < |l| && l[i].Address? ==> l[i].address in addresses)
    && (forall a :: 0 <= a < |addresses| ==> Sent(addresses[a], l))
    && (forall a, b :: 0 <= a < b < |addresses| ==> addresses[a] != addresses[b])
  }

  predicate Sent(address: text, l: seq<Record>) {
    exists i :: 0 <= i < |l| && l[i].Address? && l[i].address == address
  }

  /** Its name is that of the record that opened it. */
  predicate HasName(r: Result, l: seq<Record>) {
    l != [] && !l[0].Address? && r.link == l[0].link && r.instance == l[0].instance
  }

  predicate Holds(r: Result, l: seq<Record>) {
    && HasName(r, l) && HasHost(r.hostname, r.port, l) && HasItems(r.txt, l) && HasAddresses(r.addresses, l)
  }

  /** What a record about a result adds to it, its lifetime aside. */
  function Given(r: Result, rec: Record): Result {
    match rec
    case Ptr(_, _, _) => r
    case Srv(_, _, _, target, port) => if r.hostname.None? then r.(hostname := Some(target), port := port) else r
    case TxtData(_, _, _, items) => if r.txt == [] then r.(txt := items) else r
    case Address(_, _, _, address) => r.(addresses := AddAddress(r.addresses, address))
  }

  lemma HostMore(r: Result, l: seq<Record>, rec: Record)
    requires HasHost(r.hostname, r.port, l)
    ensures var n := Given(r, rec); HasHost(n.hostname, n.port, l + [rec])
  {
    var n, m := Given(r, rec), l + [rec];
    assert forall i :: 0 <= i < |l| ==> m[i] == l[i];
    if r.hostname.Some? {
      var i :| 0 <= i < |l| && l[i].Srv? && Some(l[i].target) == r.hostname && l[i].port == r.port
               && forall j :: 0 <= j < i ==> !l[j].Srv?;
      assert m[i].Srv? && Some(m[i].target) == n.hostname && m[i].port == n.port;
    } else if rec.Srv? {
      assert m[|l|].Srv? && Some(m[|l|].target) == n.hostname && m[|l|].port == n.port;
    }
  }

  lemma ItemsMore(r: Result, l: seq<Record>, rec: Record)
    requires HasItems(r.txt, l)
    ensures HasItems(Given(r, rec).txt, l + [rec])
  {
    var n, m := Given(r, rec), l + [rec];
    assert forall i :: 0 <= i < |l| ==> m[i] == l[i];
    if r.txt != [] {
      var i :| 0 <= i < |l| && l[i].TxtData? && l[i].items == r.txt
               && forall j :: 0 <= j < i ==> !(l[j].TxtData? && l[j].items != []);
      assert m[i].TxtData? && m[i].items == n.txt;
    } else if rec.TxtData? && rec.items != [] {
      assert m[|l|].TxtData? && m[|l|].items == n.txt;
    }
  }

  lemma AddressesMore(r: Result, l: seq<Record>, rec: Record)
    requires HasAddresses(r.addresses, l)
    ensures HasAddresses(Given(r, rec).addresses, l + [rec])
  {
    var n, m := Given(r, rec).addresses, l + [rec];
    assert forall i :: 0 <= i < |l| ==> m[i] == l[i];
    if n == r.addresses {
      forall a | 0 <= a < |n| ensures Sent(n[a], m) { SentMore(n[a], l, rec); }
    } else {
      assert n == [rec.address] + r.addresses;
      forall i | 0 <= i < |m| && m[i].Address? ensures m[i].address in n {
        if i < |l| { assert l[i].address in r.addresses; }
      }
      forall a | 0 <= a < |n| ensures Sent(n[a], m) {
        if a > 0 { SentMore(r.addresses[a - 1], l, rec); } else { assert m[|l|].address == n[0]; }
      }
      forall a, b | 0 <= a < b < |n| ensures n[a] != n[b] {
        if a == 0 { assert n[b] == r.addresses[b - 1] && rec.address !in r.addresses; }
        else { assert n[a] == r.addresses[a - 1] && n[b] == r.addresses[b - 1]; }
      }
    }
  }

  lemma SentMore(address: text, l: seq<Record>, rec: Record)
    requires Sent(address, l)
    ensures Sent(address, l + [rec])
  {
    var i :| 0 <= i < |l| && l[i].Address? && l[i].address == address;
    assert (l + [rec])[i] == l[i];
  }

  /** A record about a result adds to what it holds. */
  lemma HoldsMore(r: Result, l: seq<Record>, rec: Record)
    requires Holds(r, l)
    ensures Holds(Given(r, rec), l + [rec])
  {
    HostMore(r, l, rec);
    ItemsMore(r, l, rec);
    AddressesMore(r, l, rec);
    hide HasHost, HasItems, HasAddresses;
  }

  lemma FreshHolds(rec: Record, ttl: nat)
    requires !rec.Address?
    ensures Holds(Given(Fresh(rec.link, rec.instance, ttl), rec), [rec])
  {
    var r := Fresh(rec.link, rec.instance, ttl);
    HostMore(r, [], rec);
    ItemsMore(r, [], rec);
    AddressesMore(r, [], rec);
    assert [] + [rec] == [rec];
    hide HasHost, HasItems, HasAddresses;
  }

  lemma TtlAside(r: Result, ttl: nat, l: seq<Record>)
    ensures Holds(r.(ttl := ttl), l) == Holds(r, l)
  {
  }

  /** The result and what one record makes of it: unchanged but for its lifetime if the record is not about it. */
  predicate Turns(l: seq<Result>, r: seq<Result>, meant: Option<nat>, rec: Record, k: nat)
    requires k < |r|
  {
    var n := Oldest(r, k);
    if k < |l| then
      n == (if meant == Some(k) then Given(Oldest(l, k), rec) else Oldest(l, k)).(ttl := n.ttl)
    else
      k == |l| && meant == Some(k) && !rec.Address? && n == Given(Fresh(rec.link, rec.instance, n.ttl), rec)
  }

  lemma ReceiveTurns(s: Search, rec: Record, k: nat)
    requires k < |Receive(s, rec).results|
    ensures Turns(s.results, Receive(s, rec).results, Meant(s, rec), rec, k)
  {
    hide CaseEq, HasRoom, AddAddress;
    if rec.Address? { AddressTurns(s, rec, k); }
    else if rec.Ptr? { PtrTurns(s, rec, k); }
    else { RestTurns(s, rec, k); }
  }

  lemma AddressTurns(s: Search, rec: Record, k: nat)
    requires rec.Address? && k < |Receive(s, rec).results|
    ensures Turns(s.results, Receive(s, rec).results, Meant(s, rec), rec, k)
  {
    hide AtHost, AddAddress, FindInstance, FindExactly, HasRoom;
  }

  lemma PtrTurns(s: Search, rec: Record, k: nat)
    requires rec.Ptr? && k < |Receive(s, rec).results|
    ensures Turns(s.results, Receive(s, rec).results, Meant(s, rec), rec, k)
  {
    hide SameInstance, FindExactly;
  }

  lemma RestTurns(s: Search, rec: Record, k: nat)
    requires (rec.Srv? || rec.TxtData?) && k < |Receive(s, rec).results|
    ensures Turns(s.results, Receive(s, rec).results, Meant(s, rec), rec, k)
  {
    var (t, i) := Locate(s, rec.link, rec.instance, rec.ttl);
    LocatedIs(s, rec);
    GivenAt(s, rec);
    hide Locate, Receive, Meant, Turns, Given, FindExactly;
    GivenTurns(s.results, t.results, i, rec, k);
  }

  lemma GivenTurns(l: seq<Result>, t: seq<Result>, i: nat, rec: Record, k: nat)
    requires (rec.Srv? || rec.TxtData?) && |l| <= |t| <= |l| + 1 && i <= |t| && k < |t|
    requires |t| == |l| + 1 ==> i == 0 && t == [Fresh(rec.link, rec.instance, rec.ttl)] + l
    requires |t| == |l| ==> forall j :: 0 <= j < |l| ==> t[j] == l[j].(ttl := t[j].ttl)
    ensures var r := if i < |t| then t[i := Given(t[i], rec)] else t;
            Turns(l, r, if i < |t| then Some(|t| - 1 - i) else None, rec, k)
  {
    var r := if i < |t| then t[i := Given(t[i], rec)] else t;
    var j := |t| - 1 - k;
    GivenAside(t[j], rec);
    if |t| == |l| { GivenAside(l[j], rec); }
  }

  lemma GivenAside(r: Result, rec: Record)
    ensures Given(r, rec).ttl == r.ttl
    ensures forall ttl: nat :: Given(r.(ttl := ttl), rec) == Given(r, rec).(ttl := ttl)
  {
  }

  /** The result that is located is the one meant; the others are as they were, and it is but for its lifetime. */
  lemma LocatedIs(s: Search, rec: Record)
    requires rec.Srv? || rec.TxtData?
    ensures var (t, i) := Locate(s, rec.link, rec.instance, rec.ttl); var l, r := s.results, t.results;
            && |l| <= |r| <= |l| + 1 && i <= |r|
            && Meant(s, rec) == (if i < |r| then Some(|r| - 1 - i) else None)
            && (|r| == |l| + 1 ==> i == 0 && r == [Fresh(rec.link, rec.instance, rec.ttl)] + l)
            && (|r| == |l| ==> forall j :: 0 <= j < |l| ==> r[j] == l[j].(ttl := r[j].ttl))
  {
    hide SameInstance, Exactly;
  }

  lemma GivenAt(s: Search, rec: Record)
    requires rec.Srv? || rec.TxtData?
    ensures var (t, i) := Locate(s, rec.link, rec.instance, rec.ttl);
            Receive(s, rec).results == if i < |t.results| then t.results[i := Given(t.results[i], rec)] else t.results
  {
    hide Locate;
    var (t, i) := Locate(s, rec.link, rec.instance, rec.ttl);
    if i < |t.results| { assert t.results[i := t.results[i]] == t.results; }
  }

  /** A result holds its name from the record that opened it, host, port and items from the first that had them. */
  lemma {:induction false} ResultHolds(s: Search, recs: seq<Record>, k: nat)
    requires s.results == [] && k < |ReceiveAll(s, recs).results|
    ensures Holds(Oldest(ReceiveAll(s, recs).results, k), About(s, recs, k))
  {
    var before, rec := recs[..|recs| - 1], recs[|recs| - 1];
    var t := ReceiveAll(s, before);
    hide Receive, Meant, Holds;
    ReceiveTurns(t, rec, k);
    var n := Oldest(Receive(t, rec).results, k);
    if k < |t.results| {
      var o := Oldest(t.results, k);
      ResultHolds(s, before, k);
      if Meant(t, rec) == Some(k) { HoldsMore(o, About(s, before, k), rec); }
      else { assert About(s, before, k) + [] == About(s, before, k); }
      TtlAside(if Meant(t, rec) == Some(k) then Given(o, rec) else o, n.ttl, About(s, recs, k));
    } else {
      NotAbout(s, before, k);
      FreshHolds(rec, n.ttl);
      assert [] + [rec] == [rec];
    }
  }

  lemma {:induction false} NotAbout(s: Search, recs: seq<Record>, k: nat)
    requires s.results == [] && k >= |ReceiveAll(s, recs).results|
    ensures About(s, recs, k) == []
  {
    if recs != [] {
      var before := recs[..|recs| - 1];
      MeantWithin(ReceiveAll(s, before), recs[|recs| - 1]);
      hide Receive, Meant;
      NotAbout(s, before, k);
    }
  }

  lemma MeantWithin(s: Search, rec: Record)
    ensures |s.results| <= |Receive(s, rec).results|
    ensures Meant(s, rec).Some? ==> Meant(s, rec).value < |Receive(s, rec).results|
  {
    ReceiveSize(s, rec);
    hide Receive;
  }

  // ---------------------------------------------------------------- the search in place

  class RunningSearch {
    const maxResults: nat
    var numResults: nat
    var results: seq<Result>

    constructor (cap: nat)
      ensures Contents() == Search(cap, 0, []) && Inv(Contents())
    {
      maxResults, numResults, results := cap, 0, [];
    }

    function Contents(): Search
      reads this
    {
      Search(maxResults, numResults, results)
    }

    /** `_mdns_search_result_add_ptr` */
    method AddPtrRecord(link: nat, instance: text, ttl: nat) returns (i: nat)
      modifies this
      ensures (Contents(), i) == AddPtr(old(Contents()), link, instance, ttl)
    {
      i := 0;
      while i < |results|
        invariant i <= |results| && forall k :: 0 <= k < i ==> !SameInstance(results[k], link, instance)
      {
        var r := results[i];
        if r.link == link && r.instance != [] && CaseEq(instance, r.instance) {
          results := results[i := r.(ttl := if r.ttl < ttl then r.ttl else ttl)];
          return;
        }
        i := i + 1;
      }
      if maxResults == 0 || numResults < maxResults {
        results := [Result(link, instance, None, 0, [], [], ttl)] + results;
        numResults := numResults + 1;
        i := 0;
      }
    }

    method LocateResult(link: nat, instance: text, ttl: nat) returns (i: nat)
      modifies this
      ensures (Contents(), i) == Locate(old(Contents()), link, instance, ttl)
    {
      hide AddPtr;
      i := 0;
      while i < |results|
        invariant i <= |results| && forall k :: 0 <= k < i ==> !Exactly(results[k], link, instance)
        invariant Contents() == old(Contents())
      {
        if results[i].link == link && results[i].instance == instance { return; }
        i := i + 1;
      }
      i := AddPtrRecord(link, instance, ttl);
    }

    /** The SRV branch of `mdns_parse_packet` */
    method AddSrvRecord(link: nat, instance: text, ttl: nat, target: text, port: nat)
      modifies this
      ensures Contents() == Receive(old(Contents()), Srv(link, instance, ttl, target, port))
    {
      hide Locate;
      var i := LocateResult(link, instance, ttl);
      if i < |results| && results[i].hostname.None? {
        results := results[i := results[i].(port := port, hostname := Some(target))];
      }
    }

    /** The TXT branch of `mdns_parse_packet` */
    method AddTxtRecord(link: nat, instance: text, ttl: nat, items: seq<Item>)
      modifies this
      ensures Contents() == Receive(old(Contents()), TxtData(link, instance, ttl, items))
    {
      hide Locate;
      var i := LocateResult(link, instance, ttl);
      if i < |results| && results[i].txt == [] { results := results[i := results[i].(txt := items)]; }
    }

    /** `_mdns_search_result_add_ip` for a PTR search */
    method AddAddressRecord(link: nat, host: text, ttl: nat, address: text)
      modifies this
      ensures Contents() == Receive(old(Contents()), Address(link, host, ttl, address))
    {
      var i := 0;
      while i < |results|
        invariant i <= |results| && forall k :: 0 <= k < i ==> !AtHost(results[k], link, host)
        invariant Contents() == old(Contents())
      {
        var r := results[i];
        if r.link == link && r.hostname.Some? && r.hostname.value != [] && CaseEq(host, r.hostname.value) {
          var addresses := ChainAddress(r.addresses, address);
          results := results[i := r.(addresses := addresses, ttl := if r.ttl < ttl then r.ttl else ttl)];
          return;
        }
        i := i + 1;
      }
    }
  }

  /** `_mdns_result_add_ip` */
  method ChainAddress(l: seq<text>, address: text) returns (r: seq<text>)
    ensures r == AddAddress(l, address)
  {
    for i := 0 to |l|
      invariant address !in l[..i]
    {
      if l[i] == address { return l; }
    }
    assert l[..|l|] == l;
    return [address] + l;
  }
}
