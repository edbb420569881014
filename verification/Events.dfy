/** Market events with their full identity order, and the per-security "last n events" of a
    set of events. Tables are sequences of events; the order of a table never carries meaning. */
module Events {
  import opened Collections

  datatype Security = Security(n: int)

  datatype Event = Event(
    security: Security, time: int, session: int, channel: int, sequence: int, stable: int, payload: int)

  /** Identity order inside one security. */
  predicate Less(a: Event, b: Event) {
    || a.time < b.time
    || (a.time == b.time && a.session < b.session)
    || (a.time == b.time && a.session == b.session && a.channel < b.channel)
    || (a.time == b.time && a.session == b.session && a.channel == b.channel && a.sequence < b.sequence)
    || (a.time == b.time && a.session == b.session && a.channel == b.channel && a.sequence == b.sequence
        && a.stable < b.stable)
  }

  /** The order the window cache sorts by: security first. */
  predicate BySecurity(a: Event, b: Event) {
    a.security.n < b.security.n || (a.security == b.security && Less(a, b))
  }

  /** The order batches and replay pages have: time, security, then the rest of the identity. */
  predicate ByTime(a: Event, b: Event) {
    || a.time < b.time
    || (a.time == b.time && a.security.n < b.security.n)
    || (a.time == b.time && a.security == b.security && Less(a, b))
  }

  // ---------------------------------------------------------------- the orders, column by column

  /** The first column in which two keys differ decides. */
  predicate Lexicographic(a: seq<int>, b: seq<int>) {
    exists k :: 0 <= k < |a| && k < |b| && a[..k] == b[..k] && a[k] < b[k]
  }

  lemma FirstColumnDecides(a: seq<int>, b: seq<int>)
    requires |a| == |b| > 0
    ensures Lexicographic(a, b) <==> a[0] < b[0] || (a[0] == b[0] && Lexicographic(a[1..], b[1..]))
  {
    if Lexicographic(a, b) {
      var k :| 0 <= k < |a| && a[..k] == b[..k] && a[k] < b[k];
      if k > 0 {
        assert a[0] == a[..k][0] == b[..k][0] == b[0];
        assert a[1..][..k - 1] == a[..k][1..] == b[..k][1..] == b[1..][..k - 1];
      }
    }
    if a[0] < b[0] { assert a[..0] == b[..0]; }
    if a[0] == b[0] && Lexicographic(a[1..], b[1..]) {
      var k :| 0 <= k < |a| - 1 && a[1..][..k] == b[1..][..k] && a[1..][k] < b[1..][k];
      assert a[..k + 1] == [a[0]] + a[1..][..k] == [b[0]] + b[1..][..k] == b[..k + 1];
    }
  }

  /** Sorting columns of an event inside one security. */
  function Identity(e: Event): seq<int> {
    [e.time, e.session, e.channel, e.sequence, e.stable]
  }

  lemma LessByColumns(a: Event, b: Event)
    ensures Less(a, b) <==>
      Lexicographic([a.time, a.session, a.channel, a.sequence, a.stable],
                    [b.time, b.session, b.channel, b.sequence, b.stable])
  {
    FirstColumnDecides([a.stable], [b.stable]);
    FirstColumnDecides([a.sequence, a.stable], [b.sequence, b.stable]);
    FirstColumnDecides([a.channel, a.sequence, a.stable], [b.channel, b.sequence, b.stable]);
    FirstColumnDecides([a.session, a.channel, a.sequence, a.stable], [b.session, b.channel, b.sequence, b.stable]);
    FirstColumnDecides(Identity(a), Identity(b));
  }

  lemma MoreColumns(x: int, a: seq<int>, y: int, b: seq<int>)
    requires |a| == |b|
    ensures Lexicographic([x] + a, [y] + b) <==> x < y || (x == y && Lexicographic(a, b))
  {
    FirstColumnDecides([x] + a, [y] + b);
    assert ([x] + a)[1..] == a && ([y] + b)[1..] == b;
  }

  lemma BySecurityByColumns(a: Event, b: Event)
    ensures BySecurity(a, b) <==>
      Lexicographic([a.security.n, a.time, a.session, a.channel, a.sequence, a.stable],
                    [b.security.n, b.time, b.session, b.channel, b.sequence, b.stable])
  {
    LessByColumns(a, b);
    MoreColumns(a.security.n, Identity(a), b.security.n, Identity(b));
    assert [a.security.n] + Identity(a) == [a.security.n, a.time, a.session, a.channel, a.sequence, a.stable];
    assert [b.security.n] + Identity(b) == [b.security.n, b.time, b.session, b.channel, b.sequence, b.stable];
    assert a.security.n == b.security.n ==> a.security == b.security;
  }

  lemma ByTimeByColumns(a: Event, b: Event)
    ensures ByTime(a, b) <==>
      Lexicographic([a.time, a.security.n, a.session, a.channel, a.sequence, a.stable],
                    [b.time, b.security.n, b.session, b.channel, b.sequence, b.stable])
  {
    var x, y := [a.session, a.channel, a.sequence, a.stable], [b.session, b.channel, b.sequence, b.stable];
    LessByColumns(a, b);
    MoreColumns(a.time, x, b.time, y);
    assert [a.time] + x == Identity(a) && [b.time] + y == Identity(b);
    MoreColumns(a.security.n, x, b.security.n, y);
    MoreColumns(a.time, [a.security.n] + x, b.time, [b.security.n] + y);
    assert [a.time] + ([a.security.n] + x)
      == [a.time, a.security.n, a.session, a.channel, a.sequence, a.stable];
    assert [b.time] + ([b.security.n] + y)
      == [b.time, b.security.n, b.session, b.channel, b.sequence, b.stable];
    assert a.security.n == b.security.n ==> a.security == b.security;
  }

  /** The three orders are the column orders the sorts name. */
  lemma OrdersByColumns(a: Event, b: Event)
    ensures Less(a, b) <==>
      Lexicographic([a.time, a.session, a.channel, a.sequence, a.stable],
                    [b.time, b.session, b.channel, b.sequence, b.stable])
    ensures BySecurity(a, b) <==>
      Lexicographic([a.security.n, a.time, a.session, a.channel, a.sequence, a.stable],
                    [b.security.n, b.time, b.session, b.channel, b.sequence, b.stable])
    ensures ByTime(a, b) <==>
      Lexicographic([a.time, a.security.n, a.session, a.channel, a.sequence, a.stable],
                    [b.time, b.security.n, b.session, b.channel, b.sequence, b.stable])
  {
    LessByColumns(a, b);
    BySecurityByColumns(a, b);
    ByTimeByColumns(a, b);
  }

  /** No two events of one security share an identity. */
  ghost predicate Keyed(s: set<Event>) {
    forall a, b :: a in s && b in s && a != b && a.security == b.security ==> Less(a, b) || Less(b, a)
  }

  function Rows(table: seq<Event>): set<Event> {
    set e | e in table
  }

  // ---------------------------------------------------------------- finite sets

  lemma {:induction false} SubsetSize<T>(a: set<T>, b: set<T>)
    requires a <= b
    ensures |a| <= |b|
    decreases |a|
  {
    if x :| x in a {
      SubsetSize(a - {x}, b - {x});
    } else {
      assert a == {};
    }
  }

  lemma {:induction false} RowsSize(table: seq<Event>)
    requires NoDup(table)
    ensures |Rows(table)| == |table|
    decreases |table|
  {
    if table == [] {
      assert Rows(table) == {};
    } else {
      var front, last := table[..|table| - 1], table[|table| - 1];
      assert table == front + [last];
      RowsSize(front);
      assert Rows(table) == Rows(front) + {last};
    }
  }

  // ---------------------------------------------------------------- the last n events per security

  function Above(e: Event, s: set<Event>): set<Event> {
    set x | x in s && x.security == e.security && Less(e, x)
  }

  /** The events with fewer than `n` newer events of their own security. */
  function Tail(n: int, s: set<Event>): set<Event> {
    set e | e in s && |Above(e, s)| < n
  }

  function Of(security: Security, s: set<Event>): set<Event> {
    set e | e in s && e.security == security
  }

  /** An oldest event of a non-empty set of one security's events. */
  lemma {:induction false} Oldest(s: set<Event>, e: Event) returns (o: Event)
    requires e in s && Keyed(s) && forall x :: x in s ==> x.security == e.security
    ensures o in s && forall x :: x in s && x != o ==> Less(o, x)
    decreases |s|
  {
    if d :| d in s && d != e {
      var rest := s - {e};
      o := Oldest(rest, d);
      forall x | x in s && x != e && x != o ensures Less(o, x) { assert x in rest; }
      if Less(e, o) { o := e; } else { assert Less(o, e); }
    } else {
      o := e;
    }
  }

  /** Any `n` of one security's events leave at least `n` that have fewer than `n` above them. */
  lemma {:induction false} TopIsLarge(s: set<Event>, n: nat)
    requires Keyed(s) && n <= |s|
    requires forall x, y :: x in s && y in s ==> x.security == y.security
    ensures |Tail(n, s)| == n
    decreases |s|
  {
    if n == |s| {
      forall e | e in s ensures |Above(e, s)| < n {
        SubsetSize(Above(e, s), s - {e});
      }
      assert Tail(n, s) == s;
    } else {
      var e :| e in s;
      var o := Oldest(s, e);
      var rest := s - {o};
      TopIsLarge(rest, n);
      forall x | x in rest ensures Above(x, s) == Above(x, rest) {}
      assert Above(o, s) == rest;
      assert Tail(n, s) == Tail(n, rest);
    }
  }

  /** Dropping events that are not in the tail never changes the tail. */
  lemma TailSandwich(n: nat, u: set<Event>, w: set<Event>)
    requires Keyed(w) && Tail(n, w) <= u <= w
    ensures Tail(n, u) == Tail(n, w)
  {
    forall e | e in Tail(n, w) ensures e in Tail(n, u) {
      SubsetSize(Above(e, u), Above(e, w));
    }
    forall e | e in Tail(n, u) ensures e in Tail(n, w) {
      var above := Above(e, w);
      if |above| >= n {
        TopIsLarge(above, n);
        forall x | x in Tail(n, above) ensures x in Above(e, u) {
          assert Above(x, w) == Above(x, above);
          assert x in Tail(n, w);
        }
        SubsetSize(Tail(n, above), Above(e, u));
      }
    }
  }

  /** An older tail that is long enough, plus any newer or other events, has the tail of everything. */
  lemma TailExtend(n: nat, m: nat, a: set<Event>, b: set<Event>)
    requires n <= m && Keyed(a + b)
    ensures Tail(n, Tail(m, a) + b) == Tail(n, a + b)
  {
    forall e | e in Tail(n, a + b) ensures e in Tail(m, a) + b {
      if e in a { SubsetSize(Above(e, a), Above(e, a + b)); }
    }
    TailSandwich(n, Tail(m, a) + b, a + b);
  }

  /** The tail is what its name says: per security it holds min(n, available) events, and every
      event it holds is newer than every event of that security it leaves out. */
  lemma TailIsLast(n: nat, s: set<Event>, security: Security)
    requires Keyed(s)
    ensures |Of(security, Tail(n, s))| == if |Of(security, s)| < n then |Of(security, s)| else n
    ensures forall kept, left :: kept in Tail(n, s) && left in s && left !in Tail(n, s) ==>
      kept.security == left.security ==> Less(left, kept)
  {
    var own := Of(security, s);
    forall e | e in own ensures Above(e, s) == Above(e, own) {}
    assert Of(security, Tail(n, s)) == Tail(n, own);
    if |own| < n {
      forall e | e in own ensures |Above(e, own)| < n { SubsetSize(Above(e, own), own); }
      assert Tail(n, own) == own;
    } else {
      TopIsLarge(own, n);
    }
    forall kept, left | kept in Tail(n, s) && left in s && left !in Tail(n, s) && kept.security == left.security
      ensures Less(left, kept)
    {
      if Less(kept, left) { SubsetSize(Above(left, s), Above(kept, s)); }
    }
  }

  /** Two sets of events that both hold, per security, the newest min(n, available) are the same. */
  lemma TailIsUnique(n: nat, s: set<Event>, t: set<Event>)
    requires Keyed(s) && t <= s
    requires forall x :: |Of(x, t)| == if |Of(x, s)| < n then |Of(x, s)| else n
    requires forall kept, left :: kept in t && left in s && left !in t && kept.security == left.security ==>
      Less(left, kept)
    ensures t == Tail(n, s)
  {
    forall e | e in s ensures e in t <==> e in Tail(n, s) {
      var own := Of(e.security, t);
      if e in t {
        forall x | x in Above(e, s) ensures x in own - {e} {}
        SubsetSize(Above(e, s), own - {e});
      } else {
        forall x | x in own ensures x in Above(e, s) {}
        SubsetSize(own, Above(e, s));
        if |Of(e.security, s)| < n || |own| < n {
          SubsetSize(own + {e}, Of(e.security, s));
        }
      }
    }
  }
}
