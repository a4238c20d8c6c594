/** The order in which a query goes round the servers, and how often each of them gets its turn. */
module EngineTurns {
  import opened Clock
  import opened Engine
  import opened EngineInv

  lemma NextInTurn(first: nat, n: nat, k: nat)
    requires n >= 1
    ensures ((first + k) % n + 1) % n == (first + (k + 1)) % n
  {
    var a := first + k;
    var r, d := a % n, a / n;
    assert a == n * d + r;
    if r + 1 < n {
      ModIs(r + 1, n, 0, r + 1);
      ModIs(a + 1, n, d, r + 1);
    } else {
      Distrib(n, d, 1);
      ModIs(r + 1, n, 1, 0);
      ModIs(a + 1, n, d + 1, 0);
    }
  }

  lemma ModIs(a: nat, n: nat, d: nat, r: nat)
    requires r < n && a == n * d + r
    ensures a % n == r
  {
    RoundOf(n, d, r);
    assert a == n * (a / n) + a % n;
  }

  /** How many numbers below m leave remainder s. */
  function Residues(m: nat, n: nat, s: nat): nat
    requires n >= 1
  {
    m / n + if m % n > s then 1 else 0
  }

  lemma ResiduesStep(m: nat, n: nat, s: nat)
    requires n >= 1 && s < n
    ensures Residues(m + 1, n, s) == Residues(m, n, s) + if m % n == s then 1 else 0
  {
    var d, r := m / n, m % n;
    assert m == n * d + r;
    if r + 1 < n {
      ModIs(m + 1, n, d, r + 1);
      RoundOf(n, d, r + 1);
    } else {
      Distrib(n, d, 1);
      ModIs(m + 1, n, d + 1, 0);
      RoundOf(n, d + 1, 0);
    }
  }

  lemma {:induction false} TurnsAre(considered: seq<nat>, first: nat, n: nat, s: nat)
    requires n >= 1 && s < n && InTurn(considered, first, n)
    ensures Residues(first + |considered|, n, s) == Residues(first, n, s) + multiset(considered)[s]
  {
    hide Residues;
    var k := |considered|;
    if k > 0 {
      var front := considered[..k - 1];
      assert considered == front + [considered[k - 1]];
      TurnsAre(front, first, n, s);
      ResiduesStep(first + (k - 1), n, s);
      assert first + (k - 1) + 1 == first + k;
    }
  }

  /** n * t more numbers hold t more of each remainder. */
  lemma ResiduesRounds(first: nat, n: nat, t: nat, s: nat)
    requires n >= 1
    ensures Residues(first + n * t, n, s) == Residues(first, n, s) + t
  {
    var d, r := first / n, first % n;
    assert first == n * d + r;
    Distrib(n, d, t);
    assert first + n * t == n * (d + t) + r;
    ModIs(first + n * t, n, d + t, r);
    RoundOf(n, d + t, r);
  }

  /** Going round all the servers `tries` times gives each of them `tries` turns, wherever one starts. */
  lemma EveryServerTries(considered: seq<nat>, first: nat, cfg: Config)
    requires cfg.nservers >= 1 && |considered| == Limit(cfg) && InTurn(considered, first, cfg.nservers)
    ensures EachServer(cfg, considered)
  {
    forall s | 0 <= s < cfg.nservers ensures multiset(considered)[s] == cfg.tries {
      hide InTurn, Residues;
      ResiduesRounds(first, cfg.nservers, cfg.tries, s);
      TurnsAre(considered, first, cfg.nservers, s);
    }
  }
}
