/**
 In every run of preparing, expiring, accepting and disconnecting: few sessions
 wait, one per HAP client, and each is bound to at most one connection.
 */
module SessionPoolProofs {
  import opened Bytes
  import opened Framing
  import opened SessionPool

  // ---------------------------------------------------------------- sessions apart

  predicate Apart(s: Prepared, others: seq<Prepared>) {
    forall i | 0 <= i < |others| :: others[i].client != s.client && others[i].inKey != s.inKey
  }

  predicate AllApart(xs: seq<Prepared>) {
    xs == [] || (Apart(xs[0], xs[1..]) && AllApart(xs[1..]))
  }

  /** What is left when some sessions go: the others, in order. */
  predicate Left(stay: seq<Prepared>, xs: seq<Prepared>)
    decreases |xs|
  {
    if stay == [] then true
    else if xs == [] then false
    else (stay[0] == xs[0] && Left(stay[1..], xs[1..])) || Left(stay, xs[1..])
  }

  lemma {:induction false} LeftIsAmong(stay: seq<Prepared>, xs: seq<Prepared>, i: nat)
    requires Left(stay, xs) && i < |stay|
    ensures stay[i] in xs && |stay| <= |xs|
    decreases |xs|
  {
    if stay[0] == xs[0] && Left(stay[1..], xs[1..]) {
      if i > 0 {
        LeftIsAmong(stay[1..], xs[1..], i - 1);
      } else if |stay| > 1 {
        LeftIsAmong(stay[1..], xs[1..], 0);
      }
    } else {
      LeftIsAmong(stay, xs[1..], i);
    }
  }

  lemma {:induction false} LeftIsApart(stay: seq<Prepared>, xs: seq<Prepared>)
    requires Left(stay, xs) && AllApart(xs)
    ensures AllApart(stay)
    decreases |xs|
  {
    if stay == [] {
    } else {
      if stay[0] == xs[0] && Left(stay[1..], xs[1..]) {
        LeftIsApart(stay[1..], xs[1..]);
        forall i | 0 <= i < |stay[1..]|
          ensures stay[1..][i].client != stay[0].client && stay[1..][i].inKey != stay[0].inKey
        {
          LeftIsAmong(stay[1..], xs[1..], i);
        }
      } else {
        LeftIsApart(stay, xs[1..]);
      }
    }
  }

  lemma {:induction false} AllLeft(xs: seq<Prepared>)
    ensures Left(xs, xs)
  {
    if xs == [] {
    } else {
      AllLeft(xs[1..]);
    }
  }

  lemma {:induction false} WithoutLeft(xs: seq<Prepared>, client: Client)
    ensures Left(Without(xs, client), xs)
    ensures forall i | 0 <= i < |Without(xs, client)| :: Without(xs, client)[i].client != client
  {
    if xs == [] {
    } else {
      WithoutLeft(xs[1..], client);
      var stay := Without(xs, client);
      if xs[0].client != client {
        assert stay[0] == xs[0] && stay[1..] == Without(xs[1..], client);
      }
    }
  }

  lemma {:induction false} RemovedLeft(xs: seq<Prepared>, session: Prepared)
    requires AllApart(xs)
    ensures Left(Removed(xs, session), xs) && session !in Removed(xs, session)
  {
    if xs == [] {
    } else {
      if xs[0] == session {
        AllLeft(xs[1..]);
      } else {
        RemovedLeft(xs[1..], session);
        var stay := Removed(xs, session);
        assert stay[0] == xs[0] && stay[1..] == Removed(xs[1..], session);
      }
    }
  }

  lemma {:induction false} SameKeySameSession(xs: seq<Prepared>, i: nat, j: nat)
    requires AllApart(xs) && i < |xs| && j < |xs|
    requires xs[i].inKey == xs[j].inKey || xs[i].client == xs[j].client
    ensures i == j
  {
    if i == 0 || j == 0 {
    } else {
      SameKeySameSession(xs[1..], i - 1, j - 1);
    }
  }

  lemma {:induction false} AppendApart(xs: seq<Prepared>, s: Prepared)
    requires AllApart(xs) && Apart(s, xs)
    ensures AllApart(xs + [s])
  {
    if xs == [] {
    } else {
      assert Apart(s, xs[1..]) by {
        forall i | 0 <= i < |xs[1..]| ensures xs[1..][i].client != s.client && xs[1..][i].inKey != s.inKey {
          assert xs[1..][i] == xs[i + 1];
        }
      }
      AppendApart(xs[1..], s);
      assert (xs + [s])[1..] == xs[1..] + [s];
    }
  }

  // ---------------------------------------------------------------- every step

  predicate PendingAreNew(p: Pool) {
    forall i | 0 <= i < |p.pending| :: p.pending[i].inKey !in p.gone
  }

  predicate BoundOnce(p: Pool) {
    && (forall i | 0 <= i < |p.bound| :: p.bound[i] in p.gone)
    && (forall i, j | 0 <= i < j < |p.bound| :: p.bound[i] != p.bound[j])
  }

  predicate Inv(p: Pool) {
    |p.pending| <= MAX_PREPARED_SESSIONS && AllApart(p.pending) && PendingAreNew(p) && BoundOnce(p)
  }

  /** Sessions that leave are gone for good; those that stay are as before. */
  lemma {:induction false} KeepKeeps(p: Pool, stay: seq<Prepared>)
    requires Inv(p) && Left(stay, p.pending)
    ensures Inv(Keep(p, stay)) && p.gone <= Keep(p, stay).gone
  {
    var q := Keep(p, stay);
    LeftIsApart(stay, p.pending);
    if stay != [] {
      LeftIsAmong(stay, p.pending, 0);
    }
    forall i | 0 <= i < |stay| ensures stay[i].inKey !in q.gone {
      LeftIsAmong(stay, p.pending, i);
      var a :| 0 <= a < |p.pending| && p.pending[a] == stay[i];
      forall s | s in p.pending && s !in stay ensures s.inKey != stay[i].inKey {
        var b :| 0 <= b < |p.pending| && p.pending[b] == s;
        if s.inKey == stay[i].inKey {
          SameKeySameSession(p.pending, a, b);
        }
      }
    }
  }

  lemma {:induction false} PrepareKeeps(w: World, p: Pool, request: Request)
    requires Inv(p) && Checked(request).None? && Enabled(w, p, Prepare(request))
    ensures Inv(Apply(w, p, Prepare(request)).0)
  {
    var session, stay := SessionOf(w, request), Without(p.pending, request.client);
    WithoutLeft(p.pending, session.client);
    KeepKeeps(p, stay);
    var q := Keep(p, stay);
    forall i | 0 <= i < |p.pending| ensures p.pending[i].inKey != session.inKey {
      assert KeysOf(p.pending)[i] == p.pending[i].inKey;
    }
    forall i | 0 <= i < |stay| ensures stay[i].client != session.client && stay[i].inKey != session.inKey {
      LeftIsAmong(stay, p.pending, i);
    }
    if |q.pending| < MAX_PREPARED_SESSIONS {
      AppendApart(stay, session);
      assert session.inKey !in q.gone;
    }
  }

  lemma {:induction false} AcceptKeeps(w: World, p: Pool, header: seq<byte>, box: seq<byte>)
    requires Inv(p)
    ensures Inv(Apply(w, p, Accept(header, box)).0)
  {
    var found := Match(w, KeysOf(p.pending), header, box);
    MatchInRange(w, KeysOf(p.pending), header, box);
    if found.Some? {
      var session := p.pending[found.value.0];
      RemovedLeft(p.pending, session);
      KeepKeeps(p, Removed(p.pending, session));
    }
  }

  lemma {:induction false} StepKeeps(w: World, p: Pool, step: Step)
    requires Inv(p) && Enabled(w, p, step)
    ensures Inv(Apply(w, p, step).0)
  {
    match step
    case Prepare(request) =>
      if Checked(request).None? {
        PrepareKeeps(w, p, request);
      }
    case Expire(session) =>
      RemovedLeft(p.pending, session);
      KeepKeeps(p, Removed(p.pending, session));
    case Accept(header, box) => AcceptKeeps(w, p, header, box);
    case Disconnect(client) =>
      WithoutLeft(p.pending, client);
      KeepKeeps(p, Without(p.pending, client));
    case Clear => KeepKeeps(p, []);
  }

  // ---------------------------------------------------------------- every run

  function Empty(): Pool {
    Pool([], {}, [])
  }

  lemma {:induction false} RunKeeps(w: World, p: Pool, steps: seq<Step>)
    requires Inv(p) && AllEnabled(w, p, steps)
    ensures Inv(Run(w, p, steps))
    decreases |steps|
  {
    if steps == [] {
    } else {
      StepKeeps(w, p, steps[0]);
      RunKeeps(w, Apply(w, p, steps[0]).0, steps[1..]);
    }
  }

  /** At most 16 sessions wait, at most one per client, and no key is ever bound twice. */
  lemma {:induction false} EveryRunIsSound(w: World, steps: seq<Step>)
    requires AllEnabled(w, Empty(), steps)
    ensures var p := Run(w, Empty(), steps);
            && |p.pending| <= MAX_PREPARED_SESSIONS
            && (forall i, j | 0 <= i < j < |p.pending| :: p.pending[i].client != p.pending[j].client)
            && (forall i, j | 0 <= i < j < |p.bound| :: p.bound[i] != p.bound[j])
  {
    RunKeeps(w, Empty(), steps);
    var p := Run(w, Empty(), steps);
    forall i, j | 0 <= i < j < |p.pending| ensures p.pending[i].client != p.pending[j].client {
      if p.pending[i].client == p.pending[j].client {
        SameKeySameSession(p.pending, i, j);
      }
    }
  }

  lemma {:induction false} StepOnlyAdds(w: World, p: Pool, step: Step)
    requires Inv(p) && Enabled(w, p, step)
    ensures var q := Apply(w, p, step).0;
            && p.gone <= q.gone
            && (q.bound == p.bound || (exists s | s in p.pending :: q.bound == p.bound + [s.inKey]))
  {
    if step.Accept? {
      MatchInRange(w, KeysOf(p.pending), step.header, step.box);
    }
  }

  /** A session that was bound, replaced, expired or dropped is never bound later, whatever happens next. */
  lemma {:induction false} GoneForGood(w: World, p: Pool, steps: seq<Step>, key: Key)
    requires Inv(p) && AllEnabled(w, p, steps) && key in p.gone
    ensures var q := Run(w, p, steps);
            && p.bound <= q.bound && forall i | |p.bound| <= i < |q.bound| :: q.bound[i] != key
    decreases |steps|
  {
    if steps == [] {
    } else {
      var q := Apply(w, p, steps[0]).0;
      StepKeeps(w, p, steps[0]);
      StepOnlyAdds(w, p, steps[0]);
      GoneForGood(w, q, steps[1..], key);
    }
  }

  /**
   An accepted frame binds a pending session whose key opens it, and takes that session, and
   no other, out of the pool.
   */
  lemma {:induction false} AcceptBinds(w: World, p: Pool, header: seq<byte>, box: seq<byte>)
    requires Inv(p) && Apply(w, p, Accept(header, box)).1.Bound?
    ensures var (q, outcome) := Apply(w, p, Accept(header, box));
            && outcome.session in p.pending && OpenBox(w, outcome.session.inKey, 0, header, box) == Some(outcome.first)
            && q.gone == p.gone + {outcome.session.inKey} && q.bound == p.bound + [outcome.session.inKey]
            && forall s :: s in q.pending <==> s in p.pending && s != outcome.session
  {
    MatchInRange(w, KeysOf(p.pending), header, box);
    var session := Apply(w, p, Accept(header, box)).1.session;
    RemovedIsTheRest(p.pending, session);
  }

  lemma {:induction false} RemovedIsTheRest(xs: seq<Prepared>, session: Prepared)
    requires AllApart(xs)
    ensures forall s :: s in Removed(xs, session) <==> s in xs && s != session
  {
    if xs == [] {
    } else {
      RemovedIsTheRest(xs[1..], session);
      assert forall s :: s in xs <==> s == xs[0] || s in xs[1..];
      if xs[0] == session {
        assert session !in xs[1..];
      }
    }
  }

  lemma {:induction false} WithoutNobody(xs: seq<Prepared>, client: Client)
    ensures |Without(xs, client)| <= |xs|
    ensures |Without(xs, client)| == |xs| <==> forall i | 0 <= i < |xs| :: xs[i].client != client
    ensures |Without(xs, client)| == |xs| ==> Without(xs, client) == xs
  {
    if xs == [] {
    } else {
      WithoutNobody(xs[1..], client);
      if forall i | 0 <= i < |xs| :: xs[i].client != client {
        forall i | 0 <= i < |xs[1..]| ensures xs[1..][i].client != client {
          assert xs[1..][i] == xs[i + 1];
        }
      }
      if forall i | 0 <= i < |xs[1..]| :: xs[1..][i].client != client {
        forall i | 1 <= i < |xs| ensures xs[i].client != client {
          assert xs[i] == xs[1..][i - 1];
        }
      }
    }
  }

  /**
   A request that passes the checks is refused if and only if 16 other clients are waiting;
   the first check that fails names its reason; and no refusal drops anybody.
   */
  lemma {:induction false} RefusedWhenFull(w: World, p: Pool, request: Request)
    requires Inv(p)
    ensures var (q, outcome) := Apply(w, p, Prepare(request));
            && (outcome.TooMany? <==>
                  && request.listening && |request.sharedSecret| >= 32 && |request.controllerSalt| == 32
                  && |p.pending| == MAX_PREPARED_SESSIONS
                  && forall i | 0 <= i < |p.pending| :: p.pending[i].client != request.client)
            && (!outcome.Ready? ==> q == p)
            && (outcome.NotListening? <==> !request.listening)
            && (outcome.ShortSecret? <==> request.listening && |request.sharedSecret| < 32)
            && (outcome.BadSalt? <==>
                  request.listening && |request.sharedSecret| >= 32 && |request.controllerSalt| != 32)
            && (outcome.Ready? || outcome.TooMany? || outcome.NotListening? || outcome.ShortSecret? || outcome.BadSalt?)
  {
    WithoutNobody(p.pending, request.client);
    var q := Keep(p, Without(p.pending, request.client));
    if q.pending == p.pending {
      assert q.gone == p.gone;
    }
  }

  lemma {:induction false} WithoutIsTheRest(xs: seq<Prepared>, client: Client)
    ensures forall s :: s in Without(xs, client) <==> s in xs && s.client != client
  {
    if xs == [] {
    } else {
      WithoutIsTheRest(xs[1..], client);
      assert forall s :: s in xs <==> s == xs[0] || s in xs[1..];
    }
  }

  /** The key the controller writes under: the one of that name, over the secret and both salts. */
  function WriteKey(w: World, r: Request): Key {
    w.derive(r.sharedSecret, r.controllerSalt + r.accessorySalt, Ascii("HDS-Write-Encryption-Key"))
  }

  /** And the one it reads under. */
  function ReadKey(w: World, r: Request): Key {
    w.derive(r.sharedSecret, r.controllerSalt + r.accessorySalt, Ascii("HDS-Read-Encryption-Key"))
  }

  /** The session that answers a request: what the controller writes comes in, what it reads goes out. */
  function Granted(w: World, r: Request): Prepared {
    Prepared(r.client, WriteKey(w, r), ReadKey(w, r), r.accessorySalt)
  }

  lemma InfosAreNames()
    ensures WRITE_INFO == Ascii("HDS-Write-Encryption-Key")
    ensures READ_INFO == Ascii("HDS-Read-Encryption-Key")
  {
  }

  /** A request that is granted replaces what its client had waiting and leaves everybody else's session. */
  lemma {:induction false} PrepareReplaces(w: World, p: Pool, request: Request)
    requires Apply(w, p, Prepare(request)).1.Ready?
    ensures var q := Apply(w, p, Prepare(request)).0;
            && q.pending != [] && q.pending[|q.pending| - 1] == Granted(w, request)
            && forall s :: s in q.pending
                 <==> s == Granted(w, request) || (s in p.pending && s.client != request.client)
  {
    InfosAreNames();
    WithoutIsTheRest(p.pending, request.client);
  }

  /** A session that waits before a step and not after it is gone. */
  lemma {:induction false} WhoeverLeavesIsGone(w: World, p: Pool, step: Step, s: Prepared)
    requires s in p.pending && s !in Apply(w, p, step).0.pending
    ensures s.inKey in Apply(w, p, step).0.gone
  {
  }

  /** From the step that takes a session out of the pool on, nothing that follows binds it again. */
  lemma {:induction false} NeverAgain(w: World, p: Pool, step: Step, steps: seq<Step>, s: Prepared)
    requires Inv(p) && AllEnabled(w, p, [step] + steps)
    requires s in p.pending && s !in Apply(w, p, step).0.pending
    ensures var q, r := Apply(w, p, step).0, Run(w, p, [step] + steps);
            && q.bound <= r.bound && forall i | |q.bound| <= i < |r.bound| :: r.bound[i] != s.inKey
  {
    assert ([step] + steps)[1..] == steps;
    StepKeeps(w, p, step);
    WhoeverLeavesIsGone(w, p, step, s);
    GoneForGood(w, Apply(w, p, step).0, steps, s.inKey);
  }

  /** A timeout takes out its own session only; a lost HAP session takes out its own only; closing all leaves none. */
  lemma {:induction false} OnlyTheirOwn(w: World, p: Pool, session: Prepared, client: Client)
    requires Inv(p)
    ensures forall s :: s in Apply(w, p, Expire(session)).0.pending <==> s in p.pending && s != session
    ensures forall s :: s in Apply(w, p, Disconnect(client)).0.pending <==> s in p.pending && s.client != client
    ensures Apply(w, p, Clear).0.pending == []
  {
    RemovedIsTheRest(p.pending, session);
    WithoutIsTheRest(p.pending, client);
  }
}
