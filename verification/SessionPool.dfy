/**
 The pool of prepared data-stream sessions: keys derived for a HAP session wait
 for the connection whose first frame they open.
 */
module SessionPool {
  import opened Bytes
  import opened Framing

  const MAX_PREPARED_SESSIONS: nat := 16

  type Client = int

  const MIN_SECRET_LENGTH: nat := 32
  const SALT_LENGTH: nat := 32
  const READ_INFO: seq<byte> :=
    [0x48, 0x44, 0x53, 0x2D, 0x52, 0x65, 0x61, 0x64, 0x2D,
     0x45, 0x6E, 0x63, 0x72, 0x79, 0x70, 0x74, 0x69, 0x6F, 0x6E, 0x2D, 0x4B, 0x65, 0x79]
  const WRITE_INFO: seq<byte> :=
    [0x48, 0x44, 0x53, 0x2D, 0x57, 0x72, 0x69, 0x74, 0x65, 0x2D,
     0x45, 0x6E, 0x63, 0x72, 0x79, 0x70, 0x74, 0x69, 0x6F, 0x6E, 0x2D, 0x4B, 0x65, 0x79]

  /** A prepared session: whose it is, the keys derived for it, and the salt they were derived with. */
  datatype Prepared = Prepared(client: Client, inKey: Key, outKey: Key, accessorySalt: seq<byte>)

  /** What `prepare_session` is called with, whether the server listens, and the salt it draws. */
  datatype Request = Request(
    client: Client, listening: bool, sharedSecret: seq<byte>, controllerSalt: seq<byte>, accessorySalt: seq<byte>)

  function Checked(r: Request): Option<Outcome> {
    if !r.listening then Some(NotListening)
    else if |r.sharedSecret| < MIN_SECRET_LENGTH then Some(ShortSecret)
    else if |r.controllerSalt| != SALT_LENGTH then Some(BadSalt)
    else None
  }

  /** The session a request asks for, one key for each direction. */
  function SessionOf(w: World, r: Request): Prepared {
    var salt := r.controllerSalt + r.accessorySalt;
    Prepared(
      r.client, w.derive(r.sharedSecret, salt, WRITE_INFO), w.derive(r.sharedSecret, salt, READ_INFO), r.accessorySalt)
  }

  /** `gone` and `bound` are history: keys of sessions no longer pending, and keys bound to a connection, in order. */
  datatype Pool = Pool(pending: seq<Prepared>, gone: set<Key>, bound: seq<Key>)

  datatype Outcome =
    | Ready | NotListening | ShortSecret | BadSalt | TooMany | NotFound
    | Bound(session: Prepared, first: seq<byte>)
    | Done

  datatype Step =
    | Prepare(request: Request)
    | Expire(session: Prepared)                    // the timeout fires
    | Accept(header: seq<byte>, box: seq<byte>)    // a first frame is complete
    | Disconnect(client: Client)                   // close_for_client
    | Clear                                        // close_all and stop

  function KeysOf(pending: seq<Prepared>): (ks: seq<Key>)
    ensures |ks| == |pending| && forall i | 0 <= i < |ks| :: ks[i] == pending[i].inKey
  {
    if pending == [] then [] else [pending[0].inKey] + KeysOf(pending[1..])
  }

  /** The sessions that stay when those of `client` go, and those that stay when one session does. */
  function Without(pending: seq<Prepared>, client: Client): seq<Prepared> {
    if pending == [] then []
    else if pending[0].client == client then Without(pending[1..], client)
    else [pending[0]] + Without(pending[1..], client)
  }

  function Removed(pending: seq<Prepared>, session: Prepared): seq<Prepared> {
    if pending == [] then []
    else if pending[0] == session then pending[1..]
    else [pending[0]] + Removed(pending[1..], session)
  }

  /** The pool with only `stay` left pending. */
  function Keep(p: Pool, stay: seq<Prepared>): Pool {
    var left := set s | s in p.pending && s !in stay :: s.inKey;
    Pool(stay, p.gone + left, p.bound)
  }

  function Apply(w: World, p: Pool, step: Step): (Pool, Outcome) {
    match step
    case Prepare(request) =>
      (match Checked(request)
       case Some(refused) => (p, refused)
       case None =>
         var q := Keep(p, Without(p.pending, request.client));
         if |q.pending| >= MAX_PREPARED_SESSIONS then (q, TooMany)
         else (q.(pending := q.pending + [SessionOf(w, request)]), Ready))
    case Expire(session) => (Keep(p, Removed(p.pending, session)), Done)
    case Accept(header, box) =>
      (match Match(w, KeysOf(p.pending), header, box)
       case None => (p, NotFound)
       case Some(found) =>
         MatchInRange(w, KeysOf(p.pending), header, box);
         var session := p.pending[found.0];
         (Keep(p, Removed(p.pending, session)).(bound := p.bound + [session.inKey]), Bound(session, found.1)))
    case Disconnect(client) => (Keep(p, Without(p.pending, client)), Done)
    case Clear => (Keep(p, []), Done)
  }

  /** Derived keys are new: no pending or former session has them. */
  predicate Enabled(w: World, p: Pool, step: Step) {
    step.Prepare? && Checked(step.request).None? ==>
      var key := SessionOf(w, step.request).inKey;
      key !in p.gone && key !in KeysOf(p.pending)
  }

  predicate AllEnabled(w: World, p: Pool, steps: seq<Step>)
    decreases |steps|
  {
    steps == [] || (Enabled(w, p, steps[0]) && AllEnabled(w, Apply(w, p, steps[0]).0, steps[1..]))
  }

  function Run(w: World, p: Pool, steps: seq<Step>): Pool
    decreases |steps|
  {
    if steps == [] then p else Run(w, Apply(w, p, steps[0]).0, steps[1..])
  }
}
