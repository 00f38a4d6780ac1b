/**
 Tie-breaks between responders that claim the same service name (section 8.2 of RFC 6762): the longer
 encoding wins, and of two as long the one whose octets are greater.
 */
module Collision {
  import opened Bytes
  import opened Lists
  import opened Txt
  import opened Wire

  // ---------------------------------------------------------------- the order of encodings

  /** `memcmp` of strings of one length: the sign of the first difference. */
  function Lex(a: seq<byte>, b: seq<byte>): (r: int)
    requires |a| == |b|
    ensures -1 <= r <= 1
  {
    if a == [] then 0
    else if a[0] > b[0] then 1
    else if a[0] < b[0] then -1
    else Lex(a[1..], b[1..])
  }

  /** How two encodings compare: 1 if the first is the greater one. */
  function Rank(a: seq<byte>, b: seq<byte>): (r: int)
    ensures -1 <= r <= 1
  {
    if |a| > |b| then 1 else if |a| < |b| then -1 else Lex(a, b)
  }

  lemma {:induction false} LexOrder(a: seq<byte>, b: seq<byte>)
    requires |a| == |b|
    ensures (Lex(a, b) == 0 <==> a == b) && Lex(b, a) == -Lex(a, b)
  {
    if a != [] {
      LexOrder(a[1..], b[1..]);
      assert a == [a[0]] + a[1..] && b == [b[0]] + b[1..];
    }
  }

  lemma {:induction false} LexTrans(a: seq<byte>, b: seq<byte>, c: seq<byte>)
    requires |a| == |b| == |c| && Lex(a, b) >= 0 && Lex(b, c) >= 0
    ensures Lex(a, c) >= 0 && (Lex(a, c) == 0 ==> Lex(a, b) == 0 && Lex(b, c) == 0)
  {
    if a != [] && a[0] == b[0] == c[0] { LexTrans(a[1..], b[1..], c[1..]); }
  }

  /** A total order: equal only to itself, one way round, and transitive. */
  lemma RankIsOrder(a: seq<byte>, b: seq<byte>, c: seq<byte>)
    ensures Rank(a, b) == 0 <==> a == b
    ensures Rank(b, a) == -Rank(a, b)
    ensures Rank(a, b) > 0 && Rank(b, c) > 0 ==> Rank(a, c) > 0
  {
    if |a| == |b| { LexOrder(a, b); }
    if |a| == |b| == |c| && Lex(a, b) > 0 && Lex(b, c) > 0 { LexTrans(a, b, c); }
  }

  /** Claim `i` is stronger than every other one. */
  predicate Wins(claims: seq<seq<byte>>, i: nat)
    requires i < |claims|
  {
    forall j :: 0 <= j < |claims| && j != i ==> Rank(claims[i], claims[j]) > 0
  }

  lemma {:induction false} SomeWinner(claims: seq<seq<byte>>) returns (i: nat)
    requires claims != [] && forall k, j :: 0 <= k < j < |claims| ==> claims[k] != claims[j]
    ensures i < |claims| && Wins(claims, i)
  {
    var n := |claims| - 1;
    if n == 0 { return 0; }
    var rest := claims[..n];
    i := SomeWinner(rest);
    RankIsOrder(rest[i], claims[n], []);
    if Rank(rest[i], claims[n]) < 0 {
      forall j | 0 <= j < n ensures Rank(claims[n], claims[j]) > 0 {
        if j != i {
          assert Rank(rest[i], rest[j]) > 0;
          RankIsOrder(claims[n], rest[i], rest[j]);
        }
        RankIsOrder(rest[i], claims[n], []);
      }
      i := n;
    } else {
      assert forall j :: 0 <= j < n && j != i ==> Rank(rest[i], rest[j]) > 0;
    }
  }

  /** Of any set of distinct claims exactly one wins against all the others. */
  lemma UniqueWinner(claims: seq<seq<byte>>)
    requires claims != [] && forall k, j :: 0 <= k < j < |claims| ==> claims[k] != claims[j]
    ensures exists i :: 0 <= i < |claims| && Wins(claims, i)
    ensures forall i, k :: 0 <= i < |claims| && 0 <= k < |claims| && Wins(claims, i) && Wins(claims, k) ==> i == k
  {
    var w := SomeWinner(claims);
    forall i, k | 0 <= i < |claims| && 0 <= k < |claims| && Wins(claims, i) && Wins(claims, k) ensures i == k {
      RankIsOrder(claims[i], claims[k], []);
    }
  }

  // ---------------------------------------------------------------- SRV

  function U16(v: nat): (r: seq<byte>)
    requires v < 0x10000
    ensures |r| == 2
  {
    [v / 0x100, v % 0x100]
  }

  /** The data of an SRV record. */
  datatype Srv = Srv(priority: nat, weight: nat, port: nat, host: text, domain: text)

  predicate SrvOk(s: Srv) {
    s.priority < 0x10000 && s.weight < 0x10000 && s.port < 0x10000
  }

  function SrvBytes(s: Srv): (r: seq<byte>)
    requires SrvOk(s)
    ensures |r| == 9 + |s.host| + |s.domain|
  {
    U16(s.priority) + U16(s.weight) + U16(s.port) + [|s.host| % 0x100] + s.host + [|s.domain| % 0x100] + s.domain + [0]
  }

  /** What a responder claims: its own host name, in the default domain. */
  function Ours(priority: nat, weight: nat, port: nat, hostname: text): Srv {
    Srv(priority, weight, port, hostname, LOCAL)
  }

  /** `_mdns_check_srv_collision`: -1 when we win, 1 when they do. */
  method CheckSrvCollision(priority: nat, weight: nat, port: nat, hostname: text, theirs: Srv) returns (r: int)
    requires SrvOk(theirs) && SrvOk(Ours(priority, weight, port, hostname))
    ensures r == if hostname == [] then 0
                 else -Rank(SrvBytes(Ours(priority, weight, port, hostname)), SrvBytes(theirs))
  {
    if hostname == [] { return 0; }
    var ourLen := 14 + |hostname|;
    var theirLen := 9 + |theirs.host| + |theirs.domain|;
    if theirLen > ourLen { return 1; }
    if theirLen < ourLen { return -1; }
    var our := PutSrv(priority, weight, port, hostname, LOCAL, ourLen);
    var their := PutSrv(theirs.priority, theirs.weight, theirs.port, theirs.host, theirs.domain, theirLen);
    var ret := MemCmp(our, their);
    r := -ret;
  }

  /** One of the two arrays that are compared. */
  method PutSrv(priority: nat, weight: nat, port: nat, host: text, domain: text, len: nat) returns (data: array<byte>)
    requires SrvOk(Srv(priority, weight, port, host, domain)) && len == 9 + |host| + |domain|
    ensures fresh(data) && data[..] == SrvBytes(Srv(priority, weight, port, host, domain))
  {
    hide U16;
    data := new byte[len];
    var i := PutNumbers(data, priority, weight, port);
    i := PutLabel(data, i, host);
    i := PutLabel(data, i, domain);
    i := Put(data, i, [0]);
    assert data[..i] == data[..];
  }

  method PutNumbers(data: array<byte>, priority: nat, weight: nat, port: nat) returns (next: nat)
    requires priority < 0x10000 && weight < 0x10000 && port < 0x10000 && data.Length >= 6
    modifies data
    ensures next == 6 && data[..next] == U16(priority) + U16(weight) + U16(port)
  {
    var i := Put(data, 0, U16(priority));
    i := Put(data, i, U16(weight));
    next := Put(data, i, U16(port));
    assert data[..0] == [];
  }

  method PutLabel(data: array<byte>, index: nat, s: text) returns (next: nat)
    requires index + 1 + |s| <= data.Length
    modifies data
    ensures next == index + 1 + |s| && data[..next] == old(data[..index]) + [|s| % 0x100] + s
  {
    next := Put(data, index, [|s| % 0x100]);
    next := Put(data, next, s);
  }

  method Put(data: array<byte>, index: nat, s: seq<byte>) returns (next: nat)
    requires index + |s| <= data.Length
    modifies data
    ensures next == index + |s| && data[..next] == old(data[..index]) + s && data[next..] == old(data[index + |s|..])
  {
    for k := 0 to |s|
      invariant data[..index + k] == old(data[..index]) + s[..k]
      invariant data[index + |s|..] == old(data[index + |s|..])
    {
      data[index + k] := s[k];
    }
    assert s[..|s|] == s;
    return index + |s|;
  }

  method MemCmp(a: array<byte>, b: array<byte>) returns (r: int)
    requires a.Length == b.Length
    ensures r == Lex(a[..], b[..])
  {
    assert a[0..] == a[..] && b[0..] == b[..];
    for i := 0 to a.Length
      invariant Lex(a[i..], b[i..]) == Lex(a[..], b[..])
    {
      assert a[i..][1..] == a[i + 1..] && b[i..][1..] == b[i + 1..];
      if a[i] > b[i] { return 1; }
      if a[i] < b[i] { return -1; }
    }
    return 0;
  }

  function SrvCollision(ours: Srv, theirs: Srv): int
    requires SrvOk(ours) && SrvOk(theirs)
  {
    if ours.host == [] then 0 else -Rank(SrvBytes(ours), SrvBytes(theirs))
  }

  /** Equal encodings come from equal data. */
  lemma SrvInjective(a: Srv, b: Srv)
    requires SrvOk(a) && SrvOk(b) && a.domain == b.domain && SrvBytes(a) == SrvBytes(b)
    ensures a == b
  {
    var x, y := SrvBytes(a), SrvBytes(b);
    assert |a.host| == |b.host|;
    assert x[0] == y[0] && x[1] == y[1] && x[2] == y[2] && x[3] == y[3] && x[4] == y[4] && x[5] == y[5];
    assert x[7..7 + |a.host|] == a.host && y[7..7 + |b.host|] == b.host;
  }

  /**
   * Between named responders in the default domain an SRV check finds no conflict exactly when the
   * data agree, the two sides never both win or both lose, and winning is transitive.
   */
  lemma SrvTieBreak(a: Srv, b: Srv, c: Srv)
    requires SrvOk(a) && SrvOk(b) && SrvOk(c)
    requires a.host != [] && b.host != [] && c.host != [] && a.domain == b.domain == c.domain == LOCAL
    ensures SrvCollision(a, b) == 0 <==> a == b
    ensures SrvCollision(b, a) == -SrvCollision(a, b)
    ensures SrvCollision(a, b) < 0 && SrvCollision(b, c) < 0 ==> SrvCollision(a, c) < 0
  {
    hide SrvBytes, Rank;
    RankIsOrder(SrvBytes(a), SrvBytes(b), SrvBytes(c));
    if SrvBytes(a) == SrvBytes(b) { SrvInjective(a, b); }
    if a == b { RankIsOrder(SrvBytes(a), SrvBytes(a), []); }
  }

  // ---------------------------------------------------------------- who wins, in numbers

  /** The first octet that differs is greater in `a`. */
  predicate Greater(a: seq<byte>, b: seq<byte>) {
    exists i :: 0 <= i < |a| && i < |b| && a[..i] == b[..i] && a[i] > b[i]
  }

  lemma {:induction false} LexIsGreater(a: seq<byte>, b: seq<byte>)
    requires |a| == |b|
    ensures Lex(a, b) > 0 <==> Greater(a, b)
  {
    if a != [] {
      LexIsGreater(a[1..], b[1..]);
      if a[0] > b[0] { assert a[..0] == b[..0]; }
      if Greater(a, b) {
        var i :| 0 <= i < |a| && i < |b| && a[..i] == b[..i] && a[i] > b[i];
        if i > 0 {
          assert a[0] == a[..i][0] == b[..i][0] == b[0];
          assert a[1..][..i - 1] == a[..i][1..] == b[..i][1..] == b[1..][..i - 1];
        }
      }
      if a[0] == b[0] && Greater(a[1..], b[1..]) {
        var i :| 0 <= i < |a[1..]| && i < |b[1..]| && a[1..][..i] == b[1..][..i] && a[1..][i] > b[1..][i];
        assert a[..i + 1] == [a[0]] + a[1..][..i] && b[..i + 1] == [b[0]] + b[1..][..i];
      }
    }
  }

  /** What differs first decides. */
  lemma {:induction false} LexJoined(a: seq<byte>, b: seq<byte>, c: seq<byte>, d: seq<byte>)
    requires |a| == |b| && |c| == |d|
    ensures Lex(a + c, b + d) == if a == b then Lex(c, d) else Lex(a, b)
  {
    if a == [] {
      AndNothing(c);
      AndNothing(d);
    } else {
      ConsJoined(a, c);
      ConsJoined(b, d);
      LexJoined(a[1..], b[1..], c, d);
      assert a == [a[0]] + a[1..] && b == [b[0]] + b[1..];
    }
  }

  lemma LexU16(v: nat, w: nat)
    requires v < 0x10000 && w < 0x10000
    ensures Lex(U16(v), U16(w)) == if v > w then 1 else if v < w then -1 else 0
  {
    var a, b := U16(v), U16(w);
    assert a[1..][0] == a[1] && b[1..][0] == b[1];
    assert a[1..][1..] == [] && b[1..][1..] == [];
    assert Lex(a[1..][1..], b[1..][1..]) == 0;
    assert a[0] == v / 0x100 && b[0] == w / 0x100 && a[1] == v % 0x100 && b[1] == w % 0x100;
    assert Lex(a[1..], b[1..]) == if a[1] > b[1] then 1 else if a[1] < b[1] then -1 else 0;
    assert Lex(a, b) == if a[0] > b[0] then 1 else if a[0] < b[0] then -1 else Lex(a[1..], b[1..]);
  }

  /** The longer host wins, then the greater priority, weight and port, and then the host octet by octet. */
  predicate SrvBeats(a: Srv, b: Srv) {
    if |a.host| != |b.host| then |a.host| > |b.host|
    else if a.priority != b.priority then a.priority > b.priority
    else if a.weight != b.weight then a.weight > b.weight
    else if a.port != b.port then a.port > b.port
    else Greater(a.host, b.host)
  }

  /** Between named responders in the default domain that is what the check finds. */
  lemma SrvWinner(a: Srv, b: Srv)
    requires SrvOk(a) && SrvOk(b) && a.host != [] && b.host != [] && a.domain == b.domain == LOCAL
    ensures SrvCollision(a, b) < 0 <==> SrvBeats(a, b)
    ensures SrvCollision(a, b) > 0 <==> SrvBeats(b, a)
  {
    BeatsOne(a, b);
    BeatsOne(b, a);
    hide SrvBytes, Rank, SrvBeats;
    RankIsOrder(SrvBytes(a), SrvBytes(b), []);
  }

  lemma BeatsOne(a: Srv, b: Srv)
    requires SrvOk(a) && SrvOk(b) && a.domain == b.domain == LOCAL
    ensures Rank(SrvBytes(a), SrvBytes(b)) > 0 <==> SrvBeats(a, b)
  {
    if |a.host| == |b.host| {
      LexIsGreater(a.host, b.host);
      LexU16(a.priority, b.priority);
      LexU16(a.weight, b.weight);
      LexU16(a.port, b.port);
      SrvLex(a, b);
      if a.host == b.host { LexOrder(a.host, b.host); }
      hide SrvBytes, Lex, Greater;
    }
  }

  lemma SrvLex(a: Srv, b: Srv)
    requires SrvOk(a) && SrvOk(b) && |a.host| == |b.host| && a.domain == b.domain
    ensures Lex(SrvBytes(a), SrvBytes(b)) ==
            if U16(a.priority) != U16(b.priority) then Lex(U16(a.priority), U16(b.priority))
            else if U16(a.weight) != U16(b.weight) then Lex(U16(a.weight), U16(b.weight))
            else if U16(a.port) != U16(b.port) then Lex(U16(a.port), U16(b.port))
            else if a.host != b.host then Lex(a.host, b.host)
            else 0
  {
    hide U16, Lex;
    var n, tail := [|a.host| % 0x100], [|a.domain| % 0x100] + a.domain + [0];
    var p, q := a.host + tail, b.host + tail;
    SrvParts(a);
    SrvParts(b);
    LexJoined(U16(a.priority), U16(b.priority), U16(a.weight) + (U16(a.port) + (n + p)),
              U16(b.weight) + (U16(b.port) + (n + q)));
    LexJoined(U16(a.weight), U16(b.weight), U16(a.port) + (n + p), U16(b.port) + (n + q));
    LexJoined(U16(a.port), U16(b.port), n + p, n + q);
    LexJoined(n, n, p, q);
    LexJoined(a.host, b.host, tail, tail);
    LexOrder(tail, tail);
  }

  lemma SrvParts(s: Srv)
    requires SrvOk(s)
    ensures SrvBytes(s) == U16(s.priority) + (U16(s.weight) + (U16(s.port) + ([|s.host| % 0x100] +
                           (s.host + ([|s.domain| % 0x100] + s.domain + [0])))))
  {
    hide U16;
  }

  /** Distinct claims to one name, by named responders in the default domain. */
  predicate SrvClaims(claims: seq<Srv>) {
    && (forall k :: 0 <= k < |claims| ==> SrvOk(claims[k]) && claims[k].host != [] && claims[k].domain == LOCAL)
    && (forall k, j :: 0 <= k < j < |claims| ==> claims[k] != claims[j])
  }

  /** The check of responder `i` says that it wins, whoever it hears. */
  predicate WinsSrv(claims: seq<Srv>, i: nat)
    requires SrvClaims(claims) && i < |claims|
  {
    forall j :: 0 <= j < |claims| && j != i ==> SrvCollision(claims[i], claims[j]) < 0
  }

  /** Of any number of claimants exactly one wins its SRV checks against all the others. */
  lemma UniqueSrvWinner(claims: seq<Srv>)
    requires SrvClaims(claims) && claims != []
    ensures exists i :: 0 <= i < |claims| && WinsSrv(claims, i)
    ensures forall i, k :: 0 <= i < |claims| && 0 <= k < |claims| && WinsSrv(claims, i) && WinsSrv(claims, k) ==> i == k
  {
    var bytes := seq(|claims|, k requires 0 <= k < |claims| => SrvBytes(claims[k]));
    forall k, j | 0 <= k < j < |claims| ensures bytes[k] != bytes[j] {
      if SrvBytes(claims[k]) == SrvBytes(claims[j]) { SrvInjective(claims[k], claims[j]); }
    }
    UniqueWinner(bytes);
    forall i | 0 <= i < |claims| ensures WinsSrv(claims, i) == Wins(bytes, i) {
      hide SrvBytes, Rank;
      assert forall j :: 0 <= j < |claims| ==>
          (SrvCollision(claims[i], claims[j]) < 0 <==> Rank(bytes[i], bytes[j]) > 0);
    }
  }

  /**
   `_mdns_name_is_selfhosted` for a service name: the service found for it lies on the responder's own
   host, up to case.
   */
  predicate SelfHosted(hostname: text, host: text) {
    hostname != [] && CaseEq(hostname, host)
  }

  /**
   The branch of the parser for an SRV record of our class about a service on `host`, heard in a probe
   or a response: a service that is not self-hosted is passed over, else the responder checks with its
   own host name.
   */
  function SrvHeard(ours: Srv, host: text, theirs: Srv): int
    requires SrvOk(ours) && SrvOk(theirs)
  {
    if SelfHosted(ours.host, host) then SrvCollision(ours, theirs) else 0
  }

  /**
   The record the responder itself sends for a service names the host as the service has it. Heard
   again, it is no conflict exactly when the host is another one or has the octets of the own name.
   */
  lemma OwnRecordHeard(priority: nat, weight: nat, port: nat, hostname: text, host: text)
    requires SrvOk(Ours(priority, weight, port, hostname))
    ensures (SrvHeard(Ours(priority, weight, port, hostname), host, Ours(priority, weight, port, host)) == 0) ==
            (!SelfHosted(hostname, host) || host == hostname)
  {
    var own, said := Ours(priority, weight, port, hostname), Ours(priority, weight, port, host);
    hide SrvBytes, Rank, CaseEq;
    RankIsOrder(SrvBytes(own), SrvBytes(said), []);
    if SrvBytes(own) == SrvBytes(said) { SrvInjective(own, said); }
  }

  /** The own host is called "A", the service was added for host "a": what the responder sends beats its own claim. */
  lemma LosesToItself(priority: nat, weight: nat, port: nat)
    requires SrvOk(Ours(priority, weight, port, [0x41]))
    ensures SrvHeard(Ours(priority, weight, port, [0x41]), [0x61], Ours(priority, weight, port, [0x61])) == 1
  {
    var own, said := Ours(priority, weight, port, [0x41]), Ours(priority, weight, port, [0x61]);
    assert SelfHosted([0x41], [0x61]);
    DiffersAt(SrvBytes(own), SrvBytes(said), 7);
  }

  lemma {:induction false} DiffersAt(a: seq<byte>, b: seq<byte>, i: nat)
    requires |a| == |b| && i < |a| && a[..i] == b[..i] && a[i] < b[i]
    ensures Lex(a, b) == -1
  {
    if i > 0 {
      assert a[0] == a[..i][0] == b[..i][0] == b[0];
      assert a[1..][..i - 1] == a[..i][1..] == b[..i][1..] == b[1..][..i - 1];
      DiffersAt(a[1..], b[1..], i - 1);
    }
  }

  // ---------------------------------------------------------------- TXT

  /** The data of a TXT record, which is never empty. */
  function TxtBytes(es: seq<Entry>): seq<byte> {
    if es == [] then [0] else Encode(es)
  }

  /** The one list of entries that encodes like an empty one: an entry with neither key nor value. */
  predicate Bare(es: seq<Entry>) {
    es == [Entry([], None)]
  }

  /** What a TXT check says. */
  function TxtCollision(es: seq<Entry>, data: seq<byte>): int {
    if |data| <= 1 && es != [] then -1
    else if |data| > 1 && es == [] then 1
    else if |data| <= 1 then 0
    else -Rank(Encode(es), data)
  }

  /**
   The entries laid down from `index` on in an array that held `mem`; one that would reach the size of
   a packet is left out.
   */
  function Laid(mem: seq<byte>, index: nat, es: seq<Entry>): (r: seq<byte>)
    requires index + |Encode(es)| <= |mem|
    ensures |r| == |mem|
    decreases |es|
  {
    if es == [] then mem
    else if index + EntryLen(es[0]) + 1 >= MAX then Laid(mem, index, es[1..])
    else
      var next := index + |EntryBytes(es[0])|;
      Laid(mem[..index] + EntryBytes(es[0]) + mem[next..], next, es[1..])
  }

  /** The check as it is done, in an array on the stack that held `stack`. */
  function TxtCheck(es: seq<Entry>, data: seq<byte>, stack: seq<byte>): int
    requires |stack| == |data|
  {
    if |data| <= 1 || es == [] || |data| != |Encode(es)| then TxtCollision(es, data)
    else -Lex(Laid(stack, 0, es), data)
  }

  lemma {:induction false} LaidIs(mem: seq<byte>, index: nat, es: seq<Entry>)
    requires index + |Encode(es)| == |mem| && |mem| < MAX
    ensures Laid(mem, index, es) == mem[..index] + Encode(es)
    decreases |es|
  {
    hide EntryBytes;
    if es != [] {
      var next := index + |EntryBytes(es[0])|;
      var m := mem[..index] + EntryBytes(es[0]) + mem[next..];
      LaidIs(m, next, es[1..]);
      assert m[..next] == mem[..index] + EntryBytes(es[0]);
      Assoc(mem[..index], EntryBytes(es[0]), Encode(es[1..]));
    } else {
      Whole(mem);
      AndNothing(mem);
    }
  }

  /** With own data that fit into a packet the check compares the two encodings, whatever the stack held. */
  lemma TxtCheckIs(es: seq<Entry>, data: seq<byte>, stack: seq<byte>)
    requires |stack| == |data| && (|Encode(es)| < MAX || |data| != |Encode(es)|)
    ensures TxtCheck(es, data, stack) == TxtCollision(es, data)
  {
    if |data| == |Encode(es)| {
      LaidIs(stack, 0, es);
      AndNothing(Encode(es));
    }
  }

  /** `_mdns_check_txt_collision`; `stack` is what the array for the own data happens to hold at first. */
  method CheckTxtCollision(es: seq<Entry>, data: seq<byte>, stack: seq<byte>) returns (r: int)
    requires |stack| == |data|
    ensures r == TxtCheck(es, data, stack)
  {
    hide EntryBytes, EntryLen, Laid;
    if |data| <= 1 && es != [] { return -1; }
    if |data| > 1 && es == [] { return 1; }
    if |data| <= 1 { return 0; }
    var dataLen := 0;
    for i := 0 to |es|
      invariant dataLen == |Encode(es[..i])|
    {
      EncodeMore(es, i);
      dataLen := dataLen + 1 + EntryLen(es[i]);
    }
    Whole(es);
    if |data| > dataLen { return 1; }
    if |data| < dataLen { return -1; }
    var ours := LayDown(es, stack);
    var their := new byte[|data|](k requires 0 <= k < |data| => data[k]);
    assert their[..] == data;
    var ret := MemCmp(ours, their);
    return -ret;
  }

  /** The loop over the entries, which ignores that one may not have been laid down. */
  method LayDown(es: seq<Entry>, stack: seq<byte>) returns (ours: array<byte>)
    requires |stack| == |Encode(es)|
    ensures fresh(ours) && ours[..] == Laid(stack, 0, es)
  {
    hide EntryBytes, EntryLen, Laid;
    ours := new byte[|stack|](k requires 0 <= k < |stack| => stack[k]);
    assert ours[..] == stack;
    Whole(es);
    var index: nat := 0;
    for i := 0 to |es|
      invariant index + |Encode(es[i..])| <= ours.Length == |stack|
      invariant Laid(ours[..], index, es[i..]) == Laid(stack, 0, es)
    {
      Around(es, i);
      ghost var was := ours[..];
      LaidStep(was, index, es[i..]);
      if index + EntryLen(es[i]) + 1 < MAX { index := PutEntry(ours, index, es[i]); }
    }
    LaidNone(ours[..], index);
  }

  method PutEntry(data: array<byte>, index: nat, e: Entry) returns (next: nat)
    requires index + |EntryBytes(e)| <= data.Length
    modifies data
    ensures next == index + |EntryBytes(e)|
    ensures data[..] == old(data[..index]) + EntryBytes(e) + old(data[index + |EntryBytes(e)|..])
  {
    hide EntryBytes;
    ghost var was := data[..];
    next := Put(data, index, EntryBytes(e));
    assert data[..] == data[..next] + data[next..];
  }

  lemma LaidStep(mem: seq<byte>, index: nat, es: seq<Entry>)
    requires es != [] && index + |Encode(es)| <= |mem|
    ensures |EntryBytes(es[0])| == 1 + EntryLen(es[0]) && |Encode(es)| == |EntryBytes(es[0])| + |Encode(es[1..])|
    ensures var next := index + |EntryBytes(es[0])|;
            Laid(mem, index, es) ==
            if index + EntryLen(es[0]) + 1 >= MAX then Laid(mem, index, es[1..])
            else Laid(mem[..index] + EntryBytes(es[0]) + mem[next..], next, es[1..])
  {
  }

  lemma LaidNone(mem: seq<byte>, index: nat)
    requires index <= |mem|
    ensures Laid(mem, index, []) == mem
  {
  }

  lemma EncodeMore(es: seq<Entry>, i: nat)
    requires i < |es|
    ensures Encode(es[..i + 1]) == Encode(es[..i]) + EntryBytes(es[i])
    ensures |EntryBytes(es[i])| == 1 + EntryLen(es[i]) && |Encode(es[..i + 1])| <= |Encode(es)|
  {
    EncodeConcat(es[..i], [es[i]]);
    EncodeConcat(es[..i + 1], es[i + 1..]);
    assert es[..i + 1] == es[..i] + [es[i]] && es == es[..i + 1] + es[i + 1..];
    assert Encode([es[i]]) == EntryBytes(es[i]) by { assert [es[i]][1..] == []; }
  }

  lemma {:induction false} EncodeConcat(a: seq<Entry>, b: seq<Entry>)
    ensures Encode(a + b) == Encode(a) + Encode(b)
  {
    hide EntryBytes;
    if a == [] { assert a + b == b; }
    else {
      assert (a + b)[1..] == a[1..] + b;
      EncodeConcat(a[1..], b);
    }
  }

  /** A check against what another responder sends compares the two encodings. */
  lemma TxtIsRank(a: seq<Entry>, b: seq<Entry>)
    requires !Bare(a) && !Bare(b)
    ensures TxtCollision(a, TxtBytes(b)) == -Rank(TxtBytes(a), TxtBytes(b))
  {
    LongerThanOne(a);
    LongerThanOne(b);
    if a == [] && b == [] { LexOrder([0], [0]); }
  }

  lemma LongerThanOne(es: seq<Entry>)
    ensures es != [] && !Bare(es) ==> |Encode(es)| > 1
  {
    if es != [] && |es| > 1 { assert |Encode(es[1..])| >= 1; }
    else if es != [] { assert es == [es[0]]; }
  }

  /** The same for TXT records that hold anything. */
  lemma TxtTieBreak(a: seq<Entry>, b: seq<Entry>, c: seq<Entry>)
    requires !Bare(a) && !Bare(b) && !Bare(c)
    ensures TxtCollision(a, TxtBytes(b)) == 0 <==> TxtBytes(a) == TxtBytes(b)
    ensures TxtCollision(b, TxtBytes(a)) == -TxtCollision(a, TxtBytes(b))
    ensures TxtCollision(a, TxtBytes(b)) < 0 && TxtCollision(b, TxtBytes(c)) < 0 ==> TxtCollision(a, TxtBytes(c)) < 0
  {
    hide TxtBytes, Rank, TxtCollision;
    TxtIsRank(a, b);
    TxtIsRank(b, a);
    TxtIsRank(b, c);
    TxtIsRank(a, c);
    RankIsOrder(TxtBytes(a), TxtBytes(b), TxtBytes(c));
  }

  /** What an entry says behind its length octet. */
  function EntryText(e: Entry): text {
    if e.value.Some? then e.key + [EQUALS] + e.value.value else e.key
  }

  function Octets(es: seq<Entry>): nat {
    if es == [] then 0 else 1 + |EntryText(es[0])| + Octets(es[1..])
  }

  /** The first of two entries is the longer one, or as long and greater. */
  predicate EntryBeats(a: Entry, b: Entry) {
    var t, u := EntryText(a), EntryText(b);
    |t| > |u| || (|t| == |u| && Greater(t, u))
  }

  /** Entry `k` is the first that differs, and it is greater in `a`. */
  predicate Decides(a: seq<Entry>, b: seq<Entry>, k: nat)
    requires k < |a| && k < |b|
  {
    (forall i :: 0 <= i < k ==> EntryText(a[i]) == EntryText(b[i])) && EntryBeats(a[k], b[k])
  }

  /** The longer record wins; of two as long the first entry that differs decides. */
  predicate TxtBeats(a: seq<Entry>, b: seq<Entry>) {
    Octets(a) > Octets(b)
    || (Octets(a) == Octets(b) && exists k :: 0 <= k < |a| && k < |b| && Decides(a, b, k))
  }

  /** No entry is longer than its length octet can say. */
  predicate Short(es: seq<Entry>) {
    forall i :: 0 <= i < |es| ==> |EntryText(es[i])| < 0x100
  }

  /** That is what the check finds, for records that hold anything. */
  lemma TxtWinner(a: seq<Entry>, b: seq<Entry>)
    requires !Bare(a) && !Bare(b) && Short(a) && Short(b)
    ensures TxtCollision(a, TxtBytes(b)) < 0 <==> TxtBeats(a, b)
    ensures TxtCollision(a, TxtBytes(b)) > 0 <==> TxtBeats(b, a)
  {
    TxtIsRank(a, b);
    TxtBeatsOne(a, b);
    TxtBeatsOne(b, a);
    hide TxtBeats, Rank, TxtBytes, TxtCollision, Short, Bare;
    RankIsOrder(TxtBytes(a), TxtBytes(b), []);
  }

  lemma TxtBeatsOne(a: seq<Entry>, b: seq<Entry>)
    requires !Bare(a) && !Bare(b) && Short(a) && Short(b)
    ensures Rank(TxtBytes(a), TxtBytes(b)) > 0 <==> TxtBeats(a, b)
  {
    OctetsIs(a);
    OctetsIs(b);
    LongerThanOne(a);
    LongerThanOne(b);
    if Octets(a) == Octets(b) {
      EntriesLex(a, b);
      if a == [] { LexOrder([0], [0]); }
      hide Encode, Lex, Decides, Short, Octets;
    }
  }

  lemma {:induction false} OctetsIs(es: seq<Entry>)
    ensures |Encode(es)| == Octets(es) && (es != [] ==> Octets(es) > 0)
  {
    if es != [] { OctetsIs(es[1..]); }
  }

  lemma EntryIs(e: Entry)
    requires |EntryText(e)| < 0x100
    ensures EntryBytes(e) == [|EntryText(e)|] + EntryText(e)
  {
  }

  /** Two runs of entries that begin with one of the same text, or with two texts. */
  lemma EntryLex(a: Entry, b: Entry, c: seq<byte>, d: seq<byte>)
    requires |EntryText(a)| < 0x100 && |EntryText(b)| < 0x100 && |EntryBytes(a) + c| == |EntryBytes(b) + d|
    ensures EntryText(a) == EntryText(b) ==> |c| == |d| && Lex(EntryBytes(a) + c, EntryBytes(b) + d) == Lex(c, d)
    ensures EntryText(a) != EntryText(b) ==>
              (Lex(EntryBytes(a) + c, EntryBytes(b) + d) > 0 <==> EntryBeats(a, b))
  {
    EntryIs(a);
    EntryIs(b);
    var t, u := EntryText(a), EntryText(b);
    LexIsGreaterText(t, u);
    hide EntryText, EntryBytes, Greater;
    Assoc([|t|], t, c);
    Assoc([|u|], u, d);
    if |t| == |u| {
      LexJoined([|t|], [|u|], t + c, u + d);
      LexJoined(t, u, c, d);
    } else {
      LexJoined([|t|], [|u|], t + c, u + d);
      assert [|t|][0] != [|u|][0];
    }
  }

  lemma LexIsGreaterText(t: text, u: text)
    ensures |t| == |u| ==> (Lex(t, u) > 0 <==> Greater(t, u))
  {
    if |t| == |u| { LexIsGreater(t, u); }
  }

  lemma {:induction false} EntriesLex(a: seq<Entry>, b: seq<Entry>)
    requires Octets(a) == Octets(b) && Short(a) && Short(b)
    ensures |Encode(a)| == |Encode(b)|
    ensures Lex(Encode(a), Encode(b)) > 0 <==> exists k :: 0 <= k < |a| && k < |b| && Decides(a, b, k)
  {
    OctetsIs(a);
    OctetsIs(b);
    if a != [] && b != [] {
      EntryLex(a[0], b[0], Encode(a[1..]), Encode(b[1..]));
      OctetsIs(a[1..]);
      OctetsIs(b[1..]);
      if EntryText(a[0]) != EntryText(b[0]) { DecidesFirst(a, b); }
      else {
        assert Short(a[1..]) && Short(b[1..]);
        EntriesLex(a[1..], b[1..]);
        DecidesLater(a, b);
      }
      hide EntryText, EntryBytes, EntryBeats, Lex, Short, Octets, Decides;
    }
  }

  lemma DecidesFirst(a: seq<Entry>, b: seq<Entry>)
    requires a != [] && b != [] && EntryText(a[0]) != EntryText(b[0])
    ensures (exists k :: 0 <= k < |a| && k < |b| && Decides(a, b, k)) <==> EntryBeats(a[0], b[0])
  {
    hide EntryText, EntryBeats;
    if EntryBeats(a[0], b[0]) { assert Decides(a, b, 0); }
  }

  lemma DecidesLater(a: seq<Entry>, b: seq<Entry>)
    requires a != [] && b != [] && EntryText(a[0]) == EntryText(b[0])
    ensures (exists k :: 0 <= k < |a| && k < |b| && Decides(a, b, k)) <==>
            (exists k :: 0 <= k < |a[1..]| && k < |b[1..]| && Decides(a[1..], b[1..], k))
  {
    NotBeaten(a[0], b[0]);
    hide EntryText, EntryBeats;
    var t, u := a[1..], b[1..];
    if k :| 0 <= k < |a| && k < |b| && Decides(a, b, k) {
      assert k > 0;
      forall i | 0 <= i < k - 1 ensures EntryText(t[i]) == EntryText(u[i]) {
        assert t[i] == a[i + 1] && u[i] == b[i + 1];
      }
      assert Decides(t, u, k - 1);
    }
    if k :| 0 <= k < |t| && k < |u| && Decides(t, u, k) {
      forall i | 0 <= i < k + 1 ensures EntryText(a[i]) == EntryText(b[i]) {
        if i > 0 { assert t[i - 1] == a[i] && u[i - 1] == b[i]; }
      }
      assert Decides(a, b, k + 1);
    }
  }

  lemma NotBeaten(a: Entry, b: Entry)
    requires EntryText(a) == EntryText(b)
    ensures !EntryBeats(a, b)
  {
  }

  predicate TxtClaims(claims: seq<seq<Entry>>) {
    && (forall k :: 0 <= k < |claims| ==> !Bare(claims[k]))
    && (forall k, j :: 0 <= k < j < |claims| ==> TxtBytes(claims[k]) != TxtBytes(claims[j]))
  }

  predicate WinsTxt(claims: seq<seq<Entry>>, i: nat)
    requires i < |claims|
  {
    forall j :: 0 <= j < |claims| && j != i ==> TxtCollision(claims[i], TxtBytes(claims[j])) < 0
  }

  /** The same for TXT checks. */
  lemma UniqueTxtWinner(claims: seq<seq<Entry>>)
    requires TxtClaims(claims) && claims != []
    ensures exists i :: 0 <= i < |claims| && WinsTxt(claims, i)
    ensures forall i, k :: 0 <= i < |claims| && 0 <= k < |claims| && WinsTxt(claims, i) && WinsTxt(claims, k) ==> i == k
  {
    hide TxtBytes, Rank, TxtCollision;
    var bytes := seq(|claims|, k requires 0 <= k < |claims| => TxtBytes(claims[k]));
    UniqueWinner(bytes);
    forall i | 0 <= i < |claims| ensures WinsTxt(claims, i) == Wins(bytes, i) {
      forall j | 0 <= j < |claims|
        ensures TxtCollision(claims[i], TxtBytes(claims[j])) < 0 <==> Rank(bytes[i], bytes[j]) > 0
      {
        TxtIsRank(claims[i], claims[j]);
      }
    }
  }

  /** The exception is real: of two such records each side takes itself for the winner. */
  lemma BareConflictsWithItself(es: seq<Entry>)
    ensures TxtCollision(es, TxtBytes(es)) == 0 <==> !Bare(es)
  {
    if Bare(es) {
      assert es[1..] == [] && Encode(es) == [0];
    } else {
      TxtTieBreak(es, es, es);
    }
  }
}
