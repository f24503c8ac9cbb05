/**
 The server's list of prepared sessions, updated in place by its callbacks.
 */
module HdsServer {
  import opened Bytes
  import opened Framing
  import opened FramingProofs
  import opened SessionPool
  import opened SessionPoolProofs
  import Envelopes
  import HdsConnection

  lemma {:induction false} RemovedAt(xs: seq<Prepared>, session: Prepared, n: nat)
    requires n < |xs| && xs[n] == session && forall i | 0 <= i < n :: xs[i] != session
    ensures Removed(xs, session) == xs[..n] + xs[n + 1..]
  {
    if n == 0 {
    } else {
      RemovedAt(xs[1..], session, n - 1);
    }
  }

  lemma {:induction false} RemovedNone(xs: seq<Prepared>, session: Prepared)
    requires forall i | 0 <= i < |xs| :: xs[i] != session
    ensures Removed(xs, session) == xs
  {
    if xs == [] {
    } else {
      RemovedNone(xs[1..], session);
    }
  }

  class Server {
    const w: World
    var prepared: seq<Prepared>
    ghost var gone: set<Key>
    ghost var bound: seq<Key>

    ghost function View(): Pool
      reads this
    {
      Pool(prepared, gone, bound)
    }

    constructor (w: World)
      ensures this.w == w && View() == Pool([], {}, [])
    {
      this.w := w;
      prepared, gone, bound := [], {}, [];
    }

    /** `list.remove`: the first session equal to this one goes, if there is one. */
    method RemovePrepared(session: Prepared)
      modifies `prepared
      ensures prepared == Removed(old(prepared), session)
    {
      var n := 0;
      while n < |prepared|
        invariant n <= |prepared| && prepared == old(prepared)
        invariant forall i | 0 <= i < n :: prepared[i] != session
      {
        if prepared[n] == session {
          RemovedAt(prepared, session, n);
          prepared := prepared[..n] + prepared[n + 1..];
          return;
        }
        n := n + 1;
      }
      RemovedNone(prepared, session);
    }

    /** The loops of `prepare_session` and `close_for_client` over the sessions of one client. */
    method DropClient(client: Client)
      modifies `prepared, `gone
      ensures View() == Keep(old(View()), Without(old(prepared), client))
    {
      var stay: seq<Prepared> := [];
      var n := 0;
      assert prepared[0..] == prepared && [] + Without(prepared, client) == Without(prepared, client);
      while n < |prepared|
        invariant n <= |prepared|
        invariant Same(Without(prepared, client), stay + Without(prepared[n..], client))
      {
        assert prepared[n..][1..] == prepared[n + 1..];
        if prepared[n].client != client {
          ghost var rest := Without(prepared[n + 1..], client);
          assert stay + ([prepared[n]] + rest) == (stay + [prepared[n]]) + rest;
          stay := stay + [prepared[n]];
        }
        n := n + 1;
      }
      assert stay + [] == stay;
      gone := Keep(View(), stay).gone;
      prepared := stay;
    }

    method PrepareSession(request: Request) returns (outcome: Outcome)
      modifies `prepared, `gone
      ensures (View(), outcome) == Apply(w, old(View()), Prepare(request))
      ensures outcome.Ready? ==> prepared != [] && prepared[|prepared| - 1] == Granted(w, request)
    {
      if !request.listening {
        return NotListening;
      }
      if |request.sharedSecret| < MIN_SECRET_LENGTH {
        return ShortSecret;
      }
      if |request.controllerSalt| != SALT_LENGTH {
        return BadSalt;
      }
      DropClient(request.client);
      if |prepared| >= MAX_PREPARED_SESSIONS {
        return TooMany;
      }
      var salt := request.controllerSalt + request.accessorySalt;
      var outKey := w.derive(request.sharedSecret, salt, READ_INFO);
      var inKey := w.derive(request.sharedSecret, salt, WRITE_INFO);
      prepared := prepared + [Prepared(request.client, inKey, outKey, request.accessorySalt)];
      outcome := Ready;
      InfosAreNames();
    }

    method ExpirePrepared(session: Prepared)
      modifies `prepared, `gone
      ensures View() == Apply(w, old(View()), Expire(session)).0
    {
      RemovePrepared(session);
      gone := Keep(old(View()), prepared).gone;
    }

    /** The matching session leaves the list for its connection. */
    method Bind(session: Prepared)
      modifies this
      ensures View() == Keep(old(View()), Removed(old(prepared), session)).(bound := old(bound) + [session.inKey])
    {
      RemovePrepared(session);
      gone := Keep(old(View()), prepared).gone;
      bound := bound + [session.inKey];
    }

    /** The candidate loop of `_accept`: the first pending session whose key opens the frame. */
    method Identify(header: seq<byte>, box: seq<byte>) returns (found: Option<(nat, seq<byte>)>)
      ensures found == Match(w, KeysOf(prepared), header, box)
    {
      var n := 0;
      ghost var keys := KeysOf(prepared);
      while n < |prepared|
        invariant n <= |prepared|
        invariant forall i | 0 <= i < n :: OpenBox(w, keys[i], 0, header, box).None?
      {
        var payload := OpenBox(w, prepared[n].inKey, 0, header, box);
        if payload.Some? {
          MatchFinds(w, keys, n, header, box, payload.value);
          return Some((n, payload.value));
        }
        n := n + 1;
      }
      MatchNothing(w, keys, header, box);
      found := None;
    }

    /** What `_accept` makes of a complete first frame. */
    method AcceptFirst(header: seq<byte>, box: seq<byte>) returns (outcome: Outcome)
      modifies this
      ensures (View(), outcome) == Apply(w, old(View()), Accept(header, box))
    {
      var found := Identify(header, box);
      MatchInRange(w, KeysOf(prepared), header, box);
      if found.None? {
        return NotFound;
      }
      var candidate := prepared[found.value.0];
      Bind(candidate);
      outcome := Bound(candidate, found.value.1);
    }

    /**
     `_accept` on a complete first frame: the session it identifies gets a connection under
     its two keys, which answers the greeting.
     */
    method AcceptConnection(py: Envelopes.Python, header: seq<byte>, box: seq<byte>, rest: seq<byte>)
      returns (outcome: Outcome, connection: HdsConnection.Connection?)
      requires HdsConnection.Speaks(w, py)
      modifies this
      ensures (View(), outcome) == Apply(w, old(View()), Accept(header, box))
      ensures connection != null <==> outcome.Bound?
      ensures connection != null ==>
                && fresh(connection) && connection.w == w && connection.py == py
                && connection.inKey == outcome.session.inKey && connection.outKey == outcome.session.outKey
                && connection.In() == Opening(w, outcome.first, rest)
                && connection.Out() == HdsConnection.Answered(w, py, outcome.session.outKey, outcome.first)
    {
      outcome := AcceptFirst(header, box);
      connection := null;
      if outcome.Bound? {
        connection := new HdsConnection.Connection(w, py, outcome.session.outKey, outcome.session.inKey, rest);
        connection.Start(outcome.first);
      }
    }

    /** The pending half of `close_for_client`. */
    method CloseForClient(client: Client)
      modifies `prepared, `gone
      ensures View() == Apply(w, old(View()), Disconnect(client)).0
    {
      DropClient(client);
    }

    /** The pending half of `close_all`. */
    method CloseAll()
      modifies `prepared, `gone
      ensures View() == Apply(w, old(View()), Clear).0
    {
      gone := Keep(View(), []).gone;
      prepared := [];
    }
  }
}
