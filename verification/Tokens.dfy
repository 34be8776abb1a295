/** One-time enrollment tokens. ConsumeToken reads the token's row in one
    statement and burns it in a second, conditional one, so other calls and
    deletions may run in between. */
module Tokens {
  import opened Wrappers

  type Plaintext = nat
  type TokenId = nat
  type CallId = nat

  /** The row's hash column is represented by the plaintext it is the hash of. */
  datatype Row = Row(plaintext: Plaintext, expires: int, used: Option<int>)

  datatype Refusal = Unknown | AlreadyUsed | Expired

  /** How far one ConsumeToken call has come; `at` is the time it was called with. */
  datatype Call =
    | Selected(id: TokenId, at: int)
    | Succeeded(id: TokenId, at: int)
    | Refused(why: Refusal)

  // ---- the two statements ----

  ghost predicate Has(rows: map<TokenId, Row>, p: Plaintext) {
    exists id :: id in rows && rows[id].plaintext == p
  }

  ghost function IdOf(rows: map<TokenId, Row>, p: Plaintext): TokenId
    requires Has(rows, p)
  {
    var id :| id in rows && rows[id].plaintext == p;
    id
  }

  /** Nothing in the schema makes hashes unique: they are because plaintexts are random and never minted twice. */
  ghost predicate Unique(rows: map<TokenId, Row>) {
    forall i, j | i in rows && j in rows && rows[i].plaintext == rows[j].plaintext :: i == j
  }

  /** SELECT ... WHERE hash=?, and the two tests on the row. */
  ghost function Select(rows: map<TokenId, Row>, p: Plaintext, now: int): Call {
    if !Has(rows, p) then Refused(Unknown)
    else
      var id := IdOf(rows, p);
      if rows[id].used.Some? then Refused(AlreadyUsed)
      else if now > rows[id].expires then Refused(Expired)
      else Selected(id, now)
  }

  /** Rows affected by UPDATE ... WHERE id=? AND used_at IS NULL. */
  predicate Burns(rows: map<TokenId, Row>, id: TokenId) {
    id in rows && rows[id].used == None
  }

  function Burn(rows: map<TokenId, Row>, id: TokenId, now: int): map<TokenId, Row> {
    if Burns(rows, id) then rows[id := rows[id].(used := Some(now))] else rows
  }

  class TokenTable {
    var rows: map<TokenId, Row>

    constructor ()
      ensures rows == map[]
    {
      rows := map[];
    }

    method CreateToken(id: TokenId, p: Plaintext, ttl: int, now: int)
      requires id !in rows && !Has(rows, p) && Unique(rows)
      modifies this
      ensures rows == old(rows)[id := Row(p, now + ttl, None)] && Unique(rows)
    {
      rows := rows[id := Row(p, now + ttl, None)];
    }

    method SelectRow(p: Plaintext) returns (id: Option<TokenId>)
      requires Unique(rows)
      ensures id == if Has(rows, p) then Some(IdOf(rows, p)) else None
    {
      if i :| i in rows && rows[i].plaintext == p {
        return Some(i);
      }
      id := None;
    }

    method MarkUsed(id: TokenId, now: int) returns (affected: nat)
      modifies this
      ensures rows == Burn(old(rows), id, now)
      ensures affected == if Burns(old(rows), id) then 1 else 0
    {
      affected := 0;
      if id in rows && rows[id].used == None {
        rows := rows[id := rows[id].(used := Some(now))];
        affected := 1;
      }
    }

    method DeleteToken(id: TokenId) returns (found: bool)
      modifies this
      ensures found <==> id in old(rows)
      ensures rows == old(rows) - {id}
    {
      found := id in rows;
      rows := rows - {id};
    }

    /** ConsumeToken run without interruption. */
    method ConsumeToken(p: Plaintext, now: int) returns (r: Call)
      requires Unique(rows)
      modifies this
      ensures r == match Select(old(rows), p, now)
                   case Selected(id, at) => Succeeded(id, at)
                   case refused => refused
      ensures rows == if r.Succeeded? then Burn(old(rows), r.id, now) else old(rows)
      ensures r.Succeeded? <==>
                exists id :: && id in old(rows) && old(rows)[id].plaintext == p
                             && old(rows)[id].used == None && now <= old(rows)[id].expires
    {
      var id := SelectRow(p);
      if id == None {
        return Refused(Unknown);
      }
      if rows[id.value].used.Some? {
        return Refused(AlreadyUsed);
      }
      if now > rows[id.value].expires {
        return Refused(Expired);
      }
      var n := MarkUsed(id.value, now);
      if n == 0 {
        return Refused(AlreadyUsed);
      }
      r := Succeeded(id.value, now);
    }
  }

  // ---- every interleaving ----

  /** `minted` remembers every token ever created. */
  datatype State = State(rows: map<TokenId, Row>, calls: map<CallId, Call>, minted: map<TokenId, Row>)

  const START := State(map[], map[], map[])

  datatype Step =
    | Mint(mintId: TokenId, plaintext: Plaintext, expires: int)
    | Begin(call: CallId, token: Plaintext, now: int)
    | Finish(finished: CallId)
    | Delete(deleted: TokenId)

  ghost predicate Fresh(s: State, id: TokenId, p: Plaintext) {
    id !in s.minted && !Has(s.minted, p)
  }

  ghost function Next(s: State, step: Step): State {
    match step
    case Mint(id, p, expires) =>
      if Fresh(s, id, p)
      then State(s.rows[id := Row(p, expires, None)], s.calls, s.minted[id := Row(p, expires, None)])
      else s
    case Begin(c, p, now) =>
      if c !in s.calls then s.(calls := s.calls[c := Select(s.rows, p, now)]) else s
    case Finish(c) =>
      if c in s.calls && s.calls[c].Selected? then
        var (id, at) := (s.calls[c].id, s.calls[c].at);
        s.(rows := Burn(s.rows, id, at),
           calls := s.calls[c := if Burns(s.rows, id) then Succeeded(id, at) else Refused(AlreadyUsed)])
      else s
    case Delete(id) => s.(rows := s.rows - {id})
  }

  ghost function Run(steps: seq<Step>): State {
    if steps == [] then START else Next(Run(steps[..|steps| - 1]), steps[|steps| - 1])
  }

  ghost predicate Succeeds(s: State, c: CallId, id: TokenId) {
    c in s.calls && s.calls[c].Succeeded? && s.calls[c].id == id
  }

  /** A live row is unused exactly while no call has succeeded on it, and records when one did. */
  ghost predicate RowOk(s: State, id: TokenId)
    requires id in s.rows
  {
    && id in s.minted && s.rows[id].(used := None) == s.minted[id]
    && (s.rows[id].used == None ==> forall c :: !Succeeds(s, c, id))
    && (s.rows[id].used.Some? ==> exists c :: Succeeds(s, c, id) && s.calls[c].at == s.rows[id].used.value)
  }

  ghost predicate CallOk(s: State, c: CallId)
    requires c in s.calls
  {
    !s.calls[c].Refused? ==> s.calls[c].id in s.minted && s.calls[c].at <= s.minted[s.calls[c].id].expires
  }

  ghost predicate Inv(s: State) {
    && Unique(s.minted)
    && (forall id <- s.rows :: RowOk(s, id))
    && (forall c <- s.calls :: CallOk(s, c))
    && (forall c, d, id | Succeeds(s, c, id) && Succeeds(s, d, id) :: c == d)
  }

  lemma MintKeeps(s: State, step: Step)
    requires Inv(s) && step.Mint?
    ensures Inv(Next(s, step))
  {
    var s' := Next(s, step);
    assert forall c, id :: Succeeds(s', c, id) <==> Succeeds(s, c, id);
    forall id <- s'.rows ensures RowOk(s', id) {
      if id in s.rows {
        assert RowOk(s, id);
      }
    }
  }

  lemma BeginKeeps(s: State, step: Step)
    requires Inv(s) && step.Begin?
    ensures Inv(Next(s, step))
  {
    var s' := Next(s, step);
    assert forall c, id :: Succeeds(s', c, id) <==> Succeeds(s, c, id);
    forall id <- s'.rows ensures RowOk(s', id) {
      assert RowOk(s, id);
    }
    forall c <- s'.calls ensures CallOk(s', c) {
      if c !in s.calls && Has(s.rows, step.token) {
        assert RowOk(s, IdOf(s.rows, step.token));
      }
    }
  }

  lemma FinishKeeps(s: State, step: Step)
    requires Inv(s) && step.Finish?
    ensures Inv(Next(s, step))
  {
    var s', f := Next(s, step), step.finished;
    if f in s.calls && s.calls[f].Selected? {
      var burnt := s.calls[f].id;
      forall c, id ensures Succeeds(s', c, id)
          <==> Succeeds(s, c, id) || (c == f && id == burnt && Burns(s.rows, burnt)) {
      }
      forall id <- s'.rows ensures RowOk(s', id) {
        assert RowOk(s, id);
        if id == burnt && Burns(s.rows, burnt) {
          assert Succeeds(s', f, id);
        } else if s.rows[id].used.Some? {
          var c :| Succeeds(s, c, id) && s.calls[c].at == s.rows[id].used.value;
          assert Succeeds(s', c, id);
        }
      }
      forall c <- s'.calls ensures CallOk(s', c) {
        assert CallOk(s, c);
      }
      if Burns(s.rows, burnt) {
        assert RowOk(s, burnt);
      }
    }
  }

  lemma DeleteKeeps(s: State, step: Step)
    requires Inv(s) && step.Delete?
    ensures Inv(Next(s, step))
  {
    var s' := Next(s, step);
    assert forall c, id :: Succeeds(s', c, id) <==> Succeeds(s, c, id);
    forall id <- s'.rows ensures RowOk(s', id) {
      assert RowOk(s, id);
    }
  }

  lemma {:induction false} EveryRunKeeps(steps: seq<Step>)
    ensures Inv(Run(steps))
  {
    if steps != [] {
      var s, step := Run(steps[..|steps| - 1]), steps[|steps| - 1];
      EveryRunKeeps(steps[..|steps| - 1]);
      match step
      case Mint(_, _, _) => MintKeeps(s, step);
      case Begin(_, _, _) => BeginKeeps(s, step);
      case Finish(_) => FinishKeeps(s, step);
      case Delete(_) => DeleteKeeps(s, step);
    }
  }

  /** Under every interleaving of lookups, burns and deletions a token succeeds for at most one call,
      that call was made in time, and so enrollments map injectively to minted tokens. */
  lemma TokensAreOneTime(steps: seq<Step>, c: CallId, d: CallId)
    requires var s := Run(steps); c in s.calls && s.calls[c].Succeeded? && d in s.calls && s.calls[d].Succeeded?
    ensures var s := Run(steps);
            && s.calls[c].id in s.minted && s.calls[d].id in s.minted
            && s.calls[c].at <= s.minted[s.calls[c].id].expires
            && (c != d ==> s.calls[c].id != s.calls[d].id
                           && s.minted[s.calls[c].id].plaintext != s.minted[s.calls[d].id].plaintext)
  {
    EveryRunKeeps(steps);
    var s := Run(steps);
    assert CallOk(s, c) && CallOk(s, d);
    assert Succeeds(s, c, s.calls[c].id) && Succeeds(s, d, s.calls[d].id);
  }

  /** No token is burnt in vain: a row marked used belongs to a call that succeeded at that time. */
  lemma UsedMeansEnrolled(steps: seq<Step>, id: TokenId)
    requires id in Run(steps).rows
    ensures var s := Run(steps);
            s.rows[id].used.Some? <==> exists c :: Succeeds(s, c, id)
  {
    EveryRunKeeps(steps);
    assert RowOk(Run(steps), id);
  }

  /** Of the calls that looked a token up in time, the first to reach the second statement wins: it is
      refused exactly if another call got there first or the token was deleted. */
  lemma FinishWinsUnlessRaced(steps: seq<Step>, c: CallId)
    requires var s := Run(steps); c in s.calls && s.calls[c].Selected?
    ensures var s := Run(steps);
            var after := Next(s, Finish(c));
            after.calls[c].Succeeded? <==> s.calls[c].id in s.rows && forall d :: !Succeeds(s, d, s.calls[c].id)
  {
    EveryRunKeeps(steps);
    var s := Run(steps);
    if s.calls[c].id in s.rows {
      assert RowOk(s, s.calls[c].id);
    }
  }

  // ---- what a lookup finds, in terms of the steps ----

  /** Step k creates a token: nothing minted before it has its id or its plaintext. */
  ghost predicate Mints(steps: seq<Step>, k: nat)
    requires k < |steps|
    decreases k
  {
    steps[k].Mint? && forall j: nat | j < k && Mints(steps, j) ::
      steps[j].mintId != steps[k].mintId && steps[j].plaintext != steps[k].plaintext
  }

  /** Step k created a token with this plaintext, and it has not been deleted since. */
  ghost predicate Issued(steps: seq<Step>, k: nat, p: Plaintext) {
    && k < |steps| && Mints(steps, k) && steps[k].plaintext == p
    && forall j: nat | k < j < |steps| :: steps[j] != Delete(steps[k].mintId)
  }

  /** Some call has succeeded with the token step k created. */
  ghost predicate Spent(steps: seq<Step>, k: nat)
    requires k < |steps| && steps[k].Mint?
  {
    exists d :: Succeeds(Run(steps), d, steps[k].mintId)
  }

  lemma {:induction false} MintsPrefix(steps: seq<Step>, step: Step, k: nat)
    requires k < |steps|
    ensures Mints(steps + [step], k) <==> Mints(steps, k)
    decreases k
  {
    forall j: nat | j < k ensures Mints(steps + [step], j) <==> Mints(steps, j) && (steps + [step])[j] == steps[j] {
      MintsPrefix(steps, step, j);
    }
  }

  /** The tables hold exactly what was minted, and the rows are those not deleted since. */
  ghost predicate MintedOk(steps: seq<Step>, s: State) {
    && (forall k: nat | k < |steps| && Mints(steps, k) :: MintedAt(steps, s, k))
    && forall id <- s.minted :: MintedBy(steps, id)
  }

  ghost predicate MintedBy(steps: seq<Step>, id: TokenId) {
    exists k: nat :: k < |steps| && MintsId(steps, k, id)
  }

  ghost predicate MintsId(steps: seq<Step>, k: nat, id: TokenId)
    requires k < |steps|
  {
    Mints(steps, k) && steps[k].mintId == id
  }

  ghost predicate MintedAt(steps: seq<Step>, s: State, k: nat)
    requires k < |steps| && steps[k].Mint?
  {
    var id := steps[k].mintId;
    && id in s.minted && s.minted[id] == Row(steps[k].plaintext, steps[k].expires, None)
    && (id in s.rows <==> forall j: nat | k < j < |steps| :: steps[j] != Delete(id))
  }

  lemma FreshMints(steps: seq<Step>, s: State, step: Step)
    requires MintedOk(steps, s) && step.Mint?
    ensures Mints(steps + [step], |steps|) <==> Fresh(s, step.mintId, step.plaintext)
  {
    var all, n := steps + [step], |steps|;
    forall j: nat | j < n ensures Mints(all, j) <==> Mints(steps, j) {
      MintsPrefix(steps, step, j);
    }
    if Fresh(s, step.mintId, step.plaintext) {
      forall j: nat | j < n && Mints(all, j)
        ensures all[j].mintId != step.mintId && all[j].plaintext != step.plaintext
      {
        assert MintedAt(steps, s, j);
      }
    } else if step.mintId in s.minted {
      var k: nat :| k < n && MintsId(steps, k, step.mintId);
      assert Mints(all, k);
    } else {
      var id :| id in s.minted && s.minted[id].plaintext == step.plaintext;
      var k: nat :| k < n && MintsId(steps, k, id);
      assert Mints(all, k) && MintedAt(steps, s, k);
    }
  }

  lemma {:induction false} MintedIsHistory(steps: seq<Step>)
    ensures MintedOk(steps, Run(steps)) && Inv(Run(steps))
  {
    EveryRunKeeps(steps);
    if steps != [] {
      var init, step := steps[..|steps| - 1], steps[|steps| - 1];
      assert init + [step] == steps;
      MintedIsHistory(init);
      MintedNext(init, step);
    }
  }

  lemma MintedNext(init: seq<Step>, step: Step)
    requires MintedOk(init, Run(init))
    ensures MintedOk(init + [step], Next(Run(init), step))
  {
    hide Run, Has;
    var s, steps, n := Run(init), init + [step], |init|;
    var s' := Next(s, step);
    forall k: nat | k < n ensures Mints(steps, k) <==> Mints(init, k) {
      MintsPrefix(init, step, k);
    }
    if step.Mint? {
      FreshMints(init, s, step);
    }
    forall k: nat | k <= n && Mints(steps, k) ensures MintedAt(steps, s', k) {
      if k < n {
        MintedStays(init, s, step, k);
      } else {
        assert steps[k] == step;
      }
    }
    forall id <- s'.minted ensures MintedBy(steps, id) {
      if id in s.minted {
        var k: nat :| k < n && MintsId(init, k, id);
        assert steps[k] == init[k] && MintsId(steps, k, id);
      } else {
        assert steps[n] == step && MintsId(steps, n, id);
      }
    }
  }

  lemma MintedStays(init: seq<Step>, s: State, step: Step, k: nat)
    requires k < |init| && init[k].Mint? && MintedAt(init, s, k)
    ensures MintedAt(init + [step], Next(s, step), k)
  {
    hide Has, Select;
    var steps := init + [step];
    assert steps[k] == init[k] && steps[|init|] == step;
    assert forall j | k < j < |init| :: steps[j] == init[j];
  }

  lemma IssuedIsRow(steps: seq<Step>, k: nat, p: Plaintext)
    requires Issued(steps, k, p)
    ensures var rows, id := Run(steps).rows, steps[k].mintId;
            && Has(rows, p) && IdOf(rows, p) == id
            && rows[id].expires == steps[k].expires && (rows[id].used == None <==> !Spent(steps, k))
  {
    MintedIsHistory(steps);
    var s, id := Run(steps), steps[k].mintId;
    assert MintedAt(steps, s, k) && RowOk(s, id);
    assert RowOk(s, IdOf(s.rows, p));
  }

  lemma RowIsIssued(steps: seq<Step>, p: Plaintext) returns (k: nat)
    requires Has(Run(steps).rows, p)
    ensures Issued(steps, k, p)
  {
    MintedIsHistory(steps);
    var s := Run(steps);
    var id := IdOf(s.rows, p);
    assert RowOk(s, id);
    k :| k < |steps| && MintsId(steps, k, id);
    assert MintedAt(steps, s, k);
  }

  /** What a fresh call finds when it looks p up: a token to burn if p was minted, has not been deleted, no
      call has succeeded with it and it is not past its expiry; otherwise a refusal that names the first of
      these that fails. */
  lemma LookupOutcome(steps: seq<Step>, c: CallId, p: Plaintext, now: int)
    requires c !in Run(steps).calls
    ensures var calls := Next(Run(steps), Begin(c, p, now)).calls;
            && c in calls
            && (calls[c] == Refused(Unknown) <==> !exists k: nat :: Issued(steps, k, p))
            && forall k: nat | Issued(steps, k, p) ::
                 && (calls[c] == Refused(AlreadyUsed) <==> Spent(steps, k))
                 && (calls[c] == Refused(Expired) <==> !Spent(steps, k) && now > steps[k].expires)
                 && (calls[c] == Selected(steps[k].mintId, now) <==> !Spent(steps, k) && now <= steps[k].expires)
  {
    hide Run, Issued, Spent;
    if Has(Run(steps).rows, p) {
      var k := RowIsIssued(steps, p);
    }
    forall k: nat | Issued(steps, k, p) ensures k < |steps| && steps[k].Mint? && Has(Run(steps).rows, p)
      ensures var rows, id := Run(steps).rows, steps[k].mintId;
              && IdOf(rows, p) == id && rows[id].expires == steps[k].expires
              && (rows[id].used == None <==> !Spent(steps, k))
    {
      IssuedIsStep(steps, k, p);
      IssuedIsRow(steps, k, p);
    }
  }

  lemma IssuedIsStep(steps: seq<Step>, k: nat, p: Plaintext)
    requires Issued(steps, k, p)
    ensures k < |steps| && steps[k].Mint?
  {
  }

  /** Looked up and burnt without interruption, p enrolls its caller if and only if it was minted, has not
      been deleted, no call has succeeded with it and it is not past its expiry. */
  lemma UninterruptedSucceedsIff(steps: seq<Step>, c: CallId, p: Plaintext, now: int)
    requires c !in Run(steps).calls
    ensures var calls := Next(Next(Run(steps), Begin(c, p, now)), Finish(c)).calls;
            && c in calls
            && (calls[c].Succeeded? <==>
                  exists k: nat :: Issued(steps, k, p) && !Spent(steps, k) && now <= steps[k].expires)
  {
    hide Run, Issued, Spent;
    LookupOutcome(steps, c, p, now);
    if Has(Run(steps).rows, p) {
      var k := RowIsIssued(steps, p);
      IssuedIsRow(steps, k, p);
      IssuedIsStep(steps, k, p);
    }
  }
}
