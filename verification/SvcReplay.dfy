/** Sealed service commands: freshness window, pruning and replay cache.

    Decryption is a function of the sealed pair: with the view key fixed, the
    same nonce and ciphertext always open to the same command, or never do. */
module SvcReplay {
  import opened Wrappers

  const WINDOW := 300

  datatype Cmd = Cmd(action: string, alias: string, ts: int)

  datatype Sealed = Sealed(nonce: string, ciphertext: string)

  datatype Refusal = NotAuthentic | ActionNotAllowed | CommandExpired | Replayed

  /** svcActions and the key, fixed for the run. */
  datatype Gate = Gate(open: Sealed -> Option<Cmd>, allowed: set<string>)

  predicate Fresh(cmd: Cmd, now: int) {
    now - WINDOW <= cmd.ts <= now + WINDOW
  }

  function Pruned(seen: map<string, int>, now: int): map<string, int> {
    map iv | iv in seen && seen[iv] >= now - 2 * WINDOW :: seen[iv]
  }

  /** The cache afterwards and the verdict. */
  function Check(g: Gate, seen: map<string, int>, d: Sealed, now: int): (map<string, int>, Result<Cmd, Refusal>) {
    match g.open(d)
    case None => (seen, Err(NotAuthentic))
    case Some(cmd) =>
      if cmd.action !in g.allowed then (seen, Err(ActionNotAllowed))
      else if !Fresh(cmd, now) then (seen, Err(CommandExpired))
      else
        var kept := Pruned(seen, now);
        if d.nonce in kept then (kept, Err(Replayed)) else (kept[d.nonce := cmd.ts], Ok(cmd))
  }

  class SvcGuard {
    const gate: Gate
    var svcSeen: map<string, int>

    constructor (gate: Gate)
      ensures this.gate == gate && svcSeen == map[]
    {
      this.gate, svcSeen := gate, map[];
    }

    method OpenSvcCmd(d: Sealed, now: int) returns (r: Result<Cmd, Refusal>)
      modifies this
      ensures (svcSeen, r) == Check(gate, old(svcSeen), d, now)
    {
      var plain := gate.open(d);
      if plain == None {
        return Err(NotAuthentic);
      }
      var cmd := plain.value;
      if cmd.action !in gate.allowed {
        return Err(ActionNotAllowed);
      }
      if cmd.ts < now - WINDOW || cmd.ts > now + WINDOW {
        return Err(CommandExpired);
      }
      Prune(now);
      if d.nonce in svcSeen {
        return Err(Replayed);
      }
      svcSeen := svcSeen[d.nonce := cmd.ts];
      r := Ok(cmd);
    }

    /** Go's range over the map, deleting as it goes. */
    method Prune(now: int)
      modifies this
      ensures svcSeen == Pruned(old(svcSeen), now)
    {
      var todo := svcSeen.Keys;
      while todo != {}
        invariant todo <= old(svcSeen).Keys
        invariant svcSeen == map iv | iv in old(svcSeen) && (iv in todo || old(svcSeen)[iv] >= now - 2 * WINDOW) ::
            old(svcSeen)[iv]
        decreases todo
      {
        var iv :| iv in todo;
        todo := todo - {iv};
        if svcSeen[iv] < now - 2 * WINDOW {
          svcSeen := svcSeen - {iv};
        }
      }
    }
  }

  // ---- runs ----

  datatype Attempt = Attempt(sealed: Sealed, now: int)

  function Cache(g: Gate, run: seq<Attempt>): map<string, int> {
    if run == [] then map[] else Check(g, Cache(g, run[..|run| - 1]), run[|run| - 1].sealed, run[|run| - 1].now).0
  }

  function Verdict(g: Gate, run: seq<Attempt>, i: nat): Result<Cmd, Refusal>
    requires i < |run|
  {
    Check(g, Cache(g, run[..i]), run[i].sealed, run[i].now).1
  }

  predicate Accepted(g: Gate, run: seq<Attempt>, i: nat) {
    i < |run| && Verdict(g, run, i).Ok?
  }

  /** The clock never falls more than `slack` below an earlier reading. */
  ghost predicate ClockFallsAtMost(run: seq<Attempt>, slack: int) {
    forall i, j | 0 <= i < j < |run| :: run[j].now >= run[i].now - slack
  }

  /** An accepted nonce stays cached as long as no later reading passes its timestamp by more than two windows. */
  lemma {:induction false} NonceStaysCached(g: Gate, run: seq<Attempt>, i: nat, j: nat)
    requires Accepted(g, run, i) && i < j <= |run|
    requires forall k | i < k < j :: run[k].now - 2 * WINDOW <= Verdict(g, run, i).value.ts
    ensures run[i].sealed.nonce in Cache(g, run[..j])
    ensures Cache(g, run[..j])[run[i].sealed.nonce] == Verdict(g, run, i).value.ts
    decreases j
  {
    var r := run[..j];
    assert r[..|r| - 1] == run[..j - 1] && r[|r| - 1] == run[j - 1];
    if j > i + 1 {
      NonceStaysCached(g, run, i, j - 1);
    }
  }

  /** A sealed command is accepted at most once as long as the clock never falls more than one window. */
  lemma AcceptedAtMostOnce(g: Gate, run: seq<Attempt>, i: nat, j: nat)
    requires ClockFallsAtMost(run, WINDOW) && i < j && Accepted(g, run, i) && Accepted(g, run, j)
    ensures run[i].sealed != run[j].sealed
  {
    if run[i].sealed == run[j].sealed {
      var ts := Verdict(g, run, i).value.ts;
      forall k | i < k < j ensures run[k].now - 2 * WINDOW <= ts {
      }
      NonceStaysCached(g, run, i, j);
    }
  }

  /** The bound is tight: if the clock may fall one second more, the same command passes twice. */
  lemma OneSecondMoreAdmitsAReplay()
    ensures exists g, run: seq<Attempt> ::
              ClockFallsAtMost(run, WINDOW + 1) && |run| == 3 && run[0].sealed == run[2].sealed
              && Accepted(g, run, 0) && Accepted(g, run, 2)
  {
    var first, second := Sealed("a", ""), Sealed("b", "");
    var open: Sealed -> Option<Cmd> := (d: Sealed) => Some(Cmd("start", "x", if d == first then 0 else 601));
    var g := Gate(open, {"start"});
    var run := [Attempt(first, 0), Attempt(second, 601), Attempt(first, 300)];
    assert run[..0] == [] && run[..1] == [run[0]] && run[..2] == [run[0], run[1]];
    assert run[..1][..0] == [] && run[..2][..1] == [run[0]];
    assert Cache(g, run[..1]) == map["a" := 0];
    assert Cache(g, run[..2]) == map["b" := 601];
    assert Accepted(g, run, 0) && Accepted(g, run, 2);
    assert ClockFallsAtMost(run, WINDOW + 1);
  }

  // ---- the cache under a clock that does not fall ----

  ghost predicate Monotone(run: seq<Attempt>) {
    ClockFallsAtMost(run, 0)
  }

  /** Attempt i was accepted with this nonce and timestamp. */
  ghost predicate AcceptedAs(g: Gate, run: seq<Attempt>, i: nat, nonce: string, ts: int) {
    Accepted(g, run, i) && run[i].sealed.nonce == nonce && Verdict(g, run, i).value.ts == ts
  }

  /** Some attempt was. */
  ghost predicate Admitted(g: Gate, run: seq<Attempt>, nonce: string, ts: int) {
    exists i :: AcceptedAs(g, run, i, nonce, ts)
  }

  lemma {:induction false} VerdictOfPrefix(g: Gate, run: seq<Attempt>, more: seq<Attempt>, i: nat)
    requires i < |run|
    ensures Verdict(g, run + more, i) == Verdict(g, run, i)
  {
    assert (run + more)[..i] == run[..i];
  }

  lemma AdmittedMore(g: Gate, run: seq<Attempt>, a: Attempt, nonce: string, ts: int)
    ensures Admitted(g, run + [a], nonce, ts)
            <==> Admitted(g, run, nonce, ts) || AcceptedAs(g, run + [a], |run|, nonce, ts)
  {
    forall i: nat | i < |run| ensures AcceptedAs(g, run + [a], i, nonce, ts) <==> AcceptedAs(g, run, i, nonce, ts) {
      VerdictOfPrefix(g, run, [a], i);
    }
    if Admitted(g, run, nonce, ts) {
      var i :| AcceptedAs(g, run, i, nonce, ts);
      assert AcceptedAs(g, run + [a], i, nonce, ts);
    }
  }

  /** The cache holds only accepted commands, and every accepted one recent enough at `horizon`. */
  ghost predicate CacheCovers(g: Gate, run: seq<Attempt>, cache: map<string, int>, horizon: int) {
    && (forall iv <- cache :: Admitted(g, run, iv, cache[iv]))
    && (forall iv, ts | ts >= horizon && Admitted(g, run, iv, ts) :: iv in cache && cache[iv] == ts)
  }

  lemma NothingAdmitted(g: Gate)
    ensures forall iv, ts :: !Admitted(g, [], iv, ts)
  {
  }

  /** One attempt, as far as one nonce is concerned. */
  lemma CoverStep(g: Gate, init: seq<Attempt>, a: Attempt, horizon: int, iv: string, ts: int)
    requires CacheCovers(g, init, Cache(g, init), horizon) && a.now - 2 * WINDOW <= horizon
    ensures var cache := Cache(g, init + [a]);
            && (ts >= horizon && Admitted(g, init + [a], iv, ts) ==> iv in cache && cache[iv] == ts)
            && (iv in cache && cache[iv] == ts ==> Admitted(g, init + [a], iv, ts))
  {
    hide Admitted;
    var run := init + [a];
    assert run[..|init|] == init && run[|init|] == a;
    AdmittedMore(g, init, a, iv, ts);
    assert Verdict(g, run, |init|) == Check(g, Cache(g, init), a.sealed, a.now).1;
    assert Cache(g, run) == Check(g, Cache(g, init), a.sealed, a.now).0;
  }

  lemma {:induction false} CacheIsCovering(g: Gate, run: seq<Attempt>, horizon: int)
    requires Monotone(run) && forall i | 0 <= i < |run| :: run[i].now - 2 * WINDOW <= horizon
    ensures CacheCovers(g, run, Cache(g, run), horizon)
    decreases |run|
  {
    hide Admitted, Check;
    if run == [] {
      NothingAdmitted(g);
    } else {
      var init, a := run[..|run| - 1], run[|run| - 1];
      assert run == init + [a] && run[..|init|] == init;
      CacheIsCovering(g, init, horizon);
      forall iv, ts | ts >= horizon && Admitted(g, run, iv, ts) ensures iv in Cache(g, run) && Cache(g, run)[iv] == ts {
        CoverStep(g, init, a, horizon, iv, ts);
      }
      forall iv <- Cache(g, run) ensures Admitted(g, run, iv, Cache(g, run)[iv]) {
        CoverStep(g, init, a, horizon, iv, Cache(g, run)[iv]);
      }
    }
  }

  /** With a clock that does not fall, right after each accepted command the cache is exactly the
      accepted commands whose timestamps lie within the last two windows. */
  lemma CacheIsExact(g: Gate, run: seq<Attempt>, iv: string, ts: int)
    requires run != [] && Monotone(run) && Accepted(g, run, |run| - 1)
    ensures var now := run[|run| - 1].now;
            (iv in Cache(g, run) && Cache(g, run)[iv] == ts) <==> Admitted(g, run, iv, ts) && ts >= now - 2 * WINDOW
  {
    var now, last := run[|run| - 1].now, |run| - 1;
    forall i | 0 <= i < |run| ensures run[i].now <= now {
    }
    CacheIsCovering(g, run, now - 2 * WINDOW);
    assert run[..last] == run[..|run| - 1];
  }

  // ---- which commands are accepted, under any clock ----

  /** The attempt opens to an allowed action stamped within 300 s of the clock; only such attempts reach the cache. */
  predicate Timely(g: Gate, a: Attempt) {
    match g.open(a.sealed)
    case None => false
    case Some(cmd) => cmd.action in g.allowed && -300 <= cmd.ts - a.now <= 300
  }

  function Stamp(g: Gate, a: Attempt): int {
    match g.open(a.sealed)
    case None => 0
    case Some(cmd) => cmd.ts
  }

  /** Attempt j was accepted, and no timely attempt between it and i was made more than 600 s after its stamp. */
  ghost predicate Held(g: Gate, run: seq<Attempt>, j: nat, i: nat) {
    && j < i <= |run| && Accepted(g, run, j)
    && forall k: nat | j < k < i && Timely(g, run[k]) :: run[k].now - Stamp(g, run[j]) <= 600
  }

  ghost predicate HeldAs(g: Gate, run: seq<Attempt>, i: nat, nonce: string, ts: int) {
    exists j: nat :: Held(g, run, j, i) && run[j].sealed.nonce == nonce && Stamp(g, run[j]) == ts
  }

  lemma CheckCases(g: Gate, seen: map<string, int>, d: Sealed, now: int)
    ensures var (cache, r) := Check(g, seen, d, now);
            var nonces := set iv | iv in seen && now - seen[iv] <= 600;
            && (r.Ok? <==> Timely(g, Attempt(d, now)) && d.nonce !in nonces)
            && (forall iv :: iv in cache <==>
                  if Timely(g, Attempt(d, now)) then iv in nonces || iv == d.nonce else iv in seen)
            && (forall iv <- cache :: cache[iv] == if r.Ok? && iv == d.nonce then Stamp(g, Attempt(d, now))
                                                   else if iv in seen then seen[iv] else 0)
            && (r.Ok? ==> r.value.ts == Stamp(g, Attempt(d, now)))
  {
  }

  lemma HeldMore(g: Gate, run: seq<Attempt>, n: nat, nonce: string, ts: int)
    requires n < |run|
    ensures HeldAs(g, run, n + 1, nonce, ts) <==>
              || (Accepted(g, run, n) && run[n].sealed.nonce == nonce && Stamp(g, run[n]) == ts)
              || (HeldAs(g, run, n, nonce, ts) && (Timely(g, run[n]) ==> run[n].now - ts <= 600))
  {
    hide Accepted, Timely, Stamp;
    if HeldAs(g, run, n + 1, nonce, ts) {
      var j: nat :| Held(g, run, j, n + 1) && run[j].sealed.nonce == nonce && Stamp(g, run[j]) == ts;
      if j < n {
        assert Held(g, run, j, n);
      }
    }
    if HeldAs(g, run, n, nonce, ts) && (Timely(g, run[n]) ==> run[n].now - ts <= 600) {
      var j: nat :| Held(g, run, j, n) && run[j].sealed.nonce == nonce && Stamp(g, run[j]) == ts;
      assert Held(g, run, j, n + 1);
    }
    if Accepted(g, run, n) {
      assert Held(g, run, n, n + 1);
    }
  }

  /** For every clock, the cache is exactly the accepted commands still held. */
  lemma {:induction false} CacheIsHeld(g: Gate, run: seq<Attempt>, i: nat, nonce: string, ts: int)
    requires i <= |run|
    ensures (nonce in Cache(g, run[..i]) && Cache(g, run[..i])[nonce] == ts) <==> HeldAs(g, run, i, nonce, ts)
    decreases i
  {
    hide Check, Timely, Stamp, HeldAs;
    if i == 0 {
      NothingHeld(g, run, nonce, ts);
    } else {
      var n, r := i - 1, run[..i];
      assert r[..|r| - 1] == run[..n] && r[|r| - 1] == run[n];
      var seen := Cache(g, run[..n]);
      CheckCases(g, seen, run[n].sealed, run[n].now);
      assert run[n] == Attempt(run[n].sealed, run[n].now);
      CacheIsHeld(g, run, n, nonce, ts);
      if nonce in seen {
        CacheIsHeld(g, run, n, nonce, seen[nonce]);
      }
      HeldMore(g, run, n, nonce, ts);
    }
  }

  lemma NothingHeld(g: Gate, run: seq<Attempt>, nonce: string, ts: int)
    ensures !HeldAs(g, run, 0, nonce, ts)
  {
  }

  /** Exactly when a command is accepted, under any clock: it opens to an allowed action, its stamp is within
      300 s of the clock, and no accepted command with its nonce is still held and at most 600 s old. */
  lemma AcceptedIff(g: Gate, run: seq<Attempt>, i: nat)
    requires i < |run|
    ensures Accepted(g, run, i) <==>
              && g.open(run[i].sealed).Some?
              && g.open(run[i].sealed).value.action in g.allowed
              && -300 <= g.open(run[i].sealed).value.ts - run[i].now <= 300
              && !exists j: nat :: Held(g, run, j, i) && run[j].sealed.nonce == run[i].sealed.nonce
                                   && run[i].now - Stamp(g, run[j]) <= 600
  {
    hide Check, Held;
    var seen, nonce := Cache(g, run[..i]), run[i].sealed.nonce;
    CheckCases(g, seen, run[i].sealed, run[i].now);
    assert run[i] == Attempt(run[i].sealed, run[i].now);
    if nonce in seen {
      CacheIsHeld(g, run, i, nonce, seen[nonce]);
    }
    forall j: nat | Held(g, run, j, i) ensures j < i {
      HeldBefore(g, run, j, i);
    }
    forall j: nat | j < i && Held(g, run, j, i) && run[j].sealed.nonce == nonce
      ensures nonce in seen && seen[nonce] == Stamp(g, run[j])
    {
      assert HeldAs(g, run, i, nonce, Stamp(g, run[j]));
      CacheIsHeld(g, run, i, nonce, Stamp(g, run[j]));
    }
  }

  lemma HeldBefore(g: Gate, run: seq<Attempt>, j: nat, i: nat)
    requires Held(g, run, j, i)
    ensures j < i <= |run|
  {
  }
}
