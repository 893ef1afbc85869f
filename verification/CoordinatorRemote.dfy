/**
 * Announcements of other tabs. Between session ends, the tokens that arrive, in whatever order and
 * however often, leave the newest one; ties are where it could matter which came first.
 */
module CoordinatorRemote {
  import opened Base
  import opened CoordinatorSpec
  import opened CoordinatorRuns

  function Deliver(cfg: Config, s: State, ms: seq<Message>): State
    decreases |ms|
  {
    if |ms| == 0 then s else Deliver(cfg, Receive(cfg, s, ms[0]), ms[1..])
  }

  /** A consistent announcement for the session of `s` that the predicate accepts. */
  predicate Candidate(cfg: Config, s: State, m: Message) {
    && m.AccessUpdated? && m.token.order.Some? && m.token.order.value == m.order
    && Some(m.policy.sid) == s.sid && cfg.accept(Response(m.token, m.policy))
  }

  predicate Live(s: State) {
    !s.disposed && s.accepts && s.order.Some? && s.token.Some? && s.order == s.token.value.order
  }

  predicate OnlyAnnouncements(ms: seq<Message>) {
    forall i :: 0 <= i < |ms| ==> ms[i].AccessUpdated?
  }

  /** Issued later, or at the same time under an id that collates later. */
  predicate Newer(a: Order, b: Order) {
    a.issuedAt > b.issuedAt || (a.issuedAt == b.issuedAt && a.rank > b.rank)
  }

  lemma ComparesNewer(a: Order, b: Order)
    ensures Compare(a, b) > 0 <==> Newer(a, b)
    ensures Compare(a, b) == 0 <==> a == b
  {
  }

  /** One announcement replaces the token exactly when it is a strictly newer candidate. */
  lemma OneAnnouncement(cfg: Config, s: State, m: Message)
    requires Live(s) && m.AccessUpdated?
    ensures var s' := Receive(cfg, s, m);
      && Live(s') && s'.sid == s.sid
      && (if Candidate(cfg, s, m) && Newer(m.token.order.value, s.order.value)
          then s'.token == Some(m.token) else s' == s)
    ensures forall n :: Candidate(cfg, Receive(cfg, s, m), n) <==> Candidate(cfg, s, n)
  {
    if m.token.order.Some? { ComparesNewer(m.token.order.value, s.order.value); }
  }

  predicate Replaces(cfg: Config, s: State, ms: seq<Message>, i: int)
    requires s.order.Some?
  {
    0 <= i < |ms| && Candidate(cfg, s, ms[i]) && Newer(ms[i].token.order.value, s.order.value)
  }

  /**
   * After any deliveries the token held is the old one or a candidate that arrived, and nothing held
   * before or arrived since is newer.
   */
  lemma {:induction false} DeliveryKeepsTheNewest(cfg: Config, s: State, ms: seq<Message>)
    requires Live(s) && OnlyAnnouncements(ms)
    ensures var s' := Deliver(cfg, s, ms);
      && Live(s') && s'.sid == s.sid
      && !Newer(s.order.value, s'.order.value)
      && (s'.token == s.token || exists i :: Replaces(cfg, s, ms, i) && s'.token == Some(ms[i].token))
      && (forall i :: 0 <= i < |ms| && Candidate(cfg, s, ms[i]) ==>
            !Newer(ms[i].token.order.value, s'.order.value))
    decreases |ms|
  {
    if |ms| != 0 {
      var s1 := Receive(cfg, s, ms[0]);
      OneAnnouncement(cfg, s, ms[0]);
      assert forall i :: 0 <= i < |ms[1..]| ==> ms[1..][i] == ms[i + 1];
      DeliveryKeepsTheNewest(cfg, s1, ms[1..]);
      var s' := Deliver(cfg, s1, ms[1..]);
      forall i | 0 <= i < |ms| && Candidate(cfg, s, ms[i])
        ensures !Newer(ms[i].token.order.value, s'.order.value)
      {
        if i > 0 { assert ms[1..][i - 1] == ms[i]; }
      }
      if s'.token != s1.token {
        var j :| Replaces(cfg, s1, ms[1..], j) && s'.token == Some(ms[1..][j].token);
        assert ms[j + 1] == ms[1..][j];
        assert Replaces(cfg, s, ms, j + 1);
      } else if s1.token != s.token {
        assert Replaces(cfg, s, ms, 0);
      }
    }
  }

  predicate SameMessages(ms: seq<Message>, ns: seq<Message>) {
    (forall m :: m in ms ==> m in ns) && (forall n :: n in ns ==> n in ms)
  }

  /** Any two deliveries of the same announcements, repeated and reordered at will, agree on the order held. */
  lemma {:induction false} DeliveriesAgreeOnTheOrder(cfg: Config, s: State, ms: seq<Message>, ns: seq<Message>)
    requires Live(s) && OnlyAnnouncements(ms) && OnlyAnnouncements(ns) && SameMessages(ms, ns)
    ensures Deliver(cfg, s, ms).order == Deliver(cfg, s, ns).order
  {
    DeliveryKeepsTheNewest(cfg, s, ms);
    DeliveryKeepsTheNewest(cfg, s, ns);
    var a, b := Deliver(cfg, s, ms), Deliver(cfg, s, ns);
    NotOlder(cfg, s, ms, ns);
    NotOlder(cfg, s, ns, ms);
  }

  lemma {:induction false} NotOlder(cfg: Config, s: State, ms: seq<Message>, ns: seq<Message>)
    requires Live(s) && OnlyAnnouncements(ms) && OnlyAnnouncements(ns) && SameMessages(ms, ns)
    ensures Live(Deliver(cfg, s, ms)) && Live(Deliver(cfg, s, ns))
    ensures !Newer(Deliver(cfg, s, ns).order.value, Deliver(cfg, s, ms).order.value)
  {
    DeliveryKeepsTheNewest(cfg, s, ms);
    DeliveryKeepsTheNewest(cfg, s, ns);
    var a, b := Deliver(cfg, s, ms), Deliver(cfg, s, ns);
    if b.token != s.token {
      var i :| Replaces(cfg, s, ns, i) && b.token == Some(ns[i].token);
      assert ns[i] in ms;
      var j :| 0 <= j < |ms| && ms[j] == ns[i];
      assert !Newer(ms[j].token.order.value, a.order.value);
    }
  }

  /** A candidate newer than the token held that no other candidate beats. */
  predicate Top(cfg: Config, s: State, ms: seq<Message>, m: Message)
    requires Live(s)
  {
    && m in ms && Candidate(cfg, s, m) && Newer(m.token.order.value, s.order.value)
    && forall i :: 0 <= i < |ms| && Candidate(cfg, s, ms[i]) ==>
         !Newer(ms[i].token.order.value, m.token.order.value)
  }

  predicate TopsAgree(cfg: Config, s: State, ms: seq<Message>)
    requires Live(s)
  {
    forall i, j :: 0 <= i < |ms| && 0 <= j < |ms| && Top(cfg, s, ms, ms[i]) && Top(cfg, s, ms, ms[j]) ==>
      ms[i].token == ms[j].token
  }

  lemma {:induction false} TopWins(cfg: Config, s: State, ms: seq<Message>)
    requires Live(s) && OnlyAnnouncements(ms) && Deliver(cfg, s, ms).token != s.token
    ensures exists m :: Top(cfg, s, ms, m) && Deliver(cfg, s, ms).token == Some(m.token)
  {
    DeliveryKeepsTheNewest(cfg, s, ms);
    var s' := Deliver(cfg, s, ms);
    var i :| Replaces(cfg, s, ms, i) && s'.token == Some(ms[i].token);
    assert Top(cfg, s, ms, ms[i]);
  }

  /** The order in which the same announcements arrive cannot matter when the newest ones agree on the token. */
  lemma {:induction false} Converges(cfg: Config, s: State, ms: seq<Message>, ns: seq<Message>)
    requires Live(s) && OnlyAnnouncements(ms) && OnlyAnnouncements(ns) && SameMessages(ms, ns) && TopsAgree(cfg, s, ms)
    ensures Deliver(cfg, s, ms).token == Deliver(cfg, s, ns).token
  {
    var a, b := Deliver(cfg, s, ms), Deliver(cfg, s, ns);
    DeliveriesAgreeOnTheOrder(cfg, s, ms, ns);
    DeliveryKeepsTheNewest(cfg, s, ms);
    DeliveryKeepsTheNewest(cfg, s, ns);
    if a.token != s.token && b.token != s.token {
      TopWins(cfg, s, ms);
      TopWins(cfg, s, ns);
      var m :| Top(cfg, s, ms, m) && a.token == Some(m.token);
      var n :| Top(cfg, s, ns, n) && b.token == Some(n.token);
      assert Top(cfg, s, ms, n) by {
        forall i | 0 <= i < |ms| && Candidate(cfg, s, ms[i])
          ensures !Newer(ms[i].token.order.value, n.token.order.value)
        {
          assert ms[i] in ns;
        }
      }
      var i :| 0 <= i < |ms| && ms[i] == m;
      var j :| 0 <= j < |ms| && ms[j] == n;
    } else if a.token != s.token {
      TopWins(cfg, s, ms);
    } else if b.token != s.token {
      TopWins(cfg, s, ns);
    }
  }

  /** Delivered first, a newest candidate stays. */
  lemma {:induction false} TopFirstStays(cfg: Config, s: State, m: Message, ms: seq<Message>)
    requires Live(s) && OnlyAnnouncements(ms) && Top(cfg, s, [m] + ms, m)
    ensures Deliver(cfg, s, [m] + ms).token == Some(m.token)
  {
    OneAnnouncement(cfg, s, m);
    var s1 := Receive(cfg, s, m);
    assert ([m] + ms)[1..] == ms && ([m] + ms)[0] == m;
    assert Deliver(cfg, s, [m] + ms) == Deliver(cfg, s1, ms);
    DeliveryKeepsTheNewest(cfg, s1, ms);
    forall i | 0 <= i < |ms| ensures !Replaces(cfg, s1, ms, i) {
      assert ([m] + ms)[i + 1] == ms[i];
    }
  }

  function Fronted(ms: seq<Message>, i: nat): (ns: seq<Message>)
    requires i < |ms|
    ensures multiset(ns) == multiset(ms) && ns[0] == ms[i]
  {
    assert ms == ms[..i] + [ms[i]] + ms[i + 1..];
    [ms[i]] + (ms[..i] + ms[i + 1..])
  }

  lemma PermutedMessages(ms: seq<Message>, ns: seq<Message>)
    requires multiset(ms) == multiset(ns)
    ensures SameMessages(ms, ns) && (OnlyAnnouncements(ms) ==> OnlyAnnouncements(ns))
  {
    forall m ensures m in ms <==> m in ns {
      assert m in ms <==> m in multiset(ms);
      assert m in ns <==> m in multiset(ns);
    }
    forall i | 0 <= i < |ns| && OnlyAnnouncements(ms) ensures ns[i].AccessUpdated? {
      assert ns[i] in ms;
    }
  }

  lemma SameTops(cfg: Config, s: State, ms: seq<Message>, ns: seq<Message>, m: Message)
    requires Live(s) && SameMessages(ms, ns) && Top(cfg, s, ms, m)
    ensures Top(cfg, s, ns, m)
  {
    forall i | 0 <= i < |ns| && Candidate(cfg, s, ns[i])
      ensures !Newer(ns[i].token.order.value, m.token.order.value)
    {
      assert ns[i] in ms;
    }
  }

  /**
   * Exactly when arrival order never matters: all permutations of the announcements leave the same
   * token if and only if the newest accepted ones carry the same token. Distinct tokens whose issue
   * times and ids compare equal break it.
   */
  lemma {:induction false} ConvergesExactlyWhenTopsAgree(cfg: Config, s: State, ms: seq<Message>)
    requires Live(s) && OnlyAnnouncements(ms)
    ensures TopsAgree(cfg, s, ms) <==>
      forall ns :: multiset(ns) == multiset(ms) ==> Deliver(cfg, s, ns).token == Deliver(cfg, s, ms).token
  {
    if TopsAgree(cfg, s, ms) {
      forall ns | multiset(ns) == multiset(ms) ensures Deliver(cfg, s, ns).token == Deliver(cfg, s, ms).token {
        PermutedMessages(ms, ns);
        Converges(cfg, s, ms, ns);
      }
    } else {
      var i, j :|
        && 0 <= i < |ms| && 0 <= j < |ms| && Top(cfg, s, ms, ms[i]) && Top(cfg, s, ms, ms[j])
        && ms[i].token != ms[j].token;
      FrontedStays(cfg, s, ms, i);
      FrontedStays(cfg, s, ms, j);
    }
  }

  lemma {:induction false} FrontedStays(cfg: Config, s: State, ms: seq<Message>, i: nat)
    requires Live(s) && OnlyAnnouncements(ms) && i < |ms| && Top(cfg, s, ms, ms[i])
    ensures Deliver(cfg, s, Fronted(ms, i)).token == Some(ms[i].token)
  {
    var ns := Fronted(ms, i);
    PermutedMessages(ms, ns);
    SameTops(cfg, s, ms, ns, ms[i]);
    assert ns == [ms[i]] + ns[1..];
    TopFirstStays(cfg, s, ms[i], ns[1..]);
  }

  /** Two announcements of one order and different tokens, both newer than what is held: the first to arrive stays. */
  lemma {:induction false} TiedTokensDiverge(cfg: Config, s: State, m: Message, n: Message)
    requires Live(s) && Candidate(cfg, s, m) && Candidate(cfg, s, n) && m.token != n.token
    requires m.token.order == n.token.order && Newer(m.token.order.value, s.order.value)
    ensures Deliver(cfg, s, [m, n]).token == Some(m.token) && Deliver(cfg, s, [n, m]).token == Some(n.token)
    ensures !TopsAgree(cfg, s, [m, n])
  {
    assert [m] + [n] == [m, n] && [n] + [m] == [n, m];
    assert Top(cfg, s, [m, n], m) && Top(cfg, s, [m, n], n) && Top(cfg, s, [n, m], n);
    TopFirstStays(cfg, s, m, [n]);
    TopFirstStays(cfg, s, n, [m]);
    assert [m, n][0] == m && [m, n][1] == n;
  }

  /** It happens: two texts issued in the same second under ids that collate alike reach two tabs in opposite order. */
  lemma TiedTokensExist() returns (cfg: Config, s: State, m: Message, n: Message)
    ensures s.token == Some(Token("t", Some(Order(0.0, 0)))) && s.sid == Some("s")
    ensures m == AccessUpdated(Token("a", Some(Order(1.0, 0))), Policy("s", None), Order(1.0, 0))
    ensures n == AccessUpdated(Token("b", Some(Order(1.0, 0))), Policy("s", None), Order(1.0, 0))
    ensures Deliver(cfg, s, [m, n]).token == Some(m.token) && Deliver(cfg, s, [n, m]).token == Some(n.token)
  {
    cfg := Config(0, (r: Response) => true);
    s := Installed(Initial(), Response(Token("t", Some(Order(0.0, 0))), Policy("s", None)), false);
    m := AccessUpdated(Token("a", Some(Order(1.0, 0))), Policy("s", None), Order(1.0, 0));
    n := AccessUpdated(Token("b", Some(Order(1.0, 0))), Policy("s", None), Order(1.0, 0));
    TiedTokensDiverge(cfg, s, m, n);
  }
}
