/**
 * Many clients editing one state: GET, edit the JSON, PUT it back with the tag as If-Match
 * (internal/webui/static/js/disruptoor.js; RFC 9110, section 13.1.1).
 */
module Clients {
  import opened Wrappers
  import opened Discovery
  import opened Kernel
  import opened Api
  import opened Json
  import S = State
  import T = ETag
  import Runs

  /** What a client does to the JSON it read. */
  type Edit = Json -> Json

  /** The server's body decoder, whatever it accepts. */
  type Decoder = Json -> Option<S.State>

  /** What a client got from its last GET, or from the last PUT of its own that succeeded. */
  datatype Held = Held(body: Json, tag: string)

  /**
   * `base` is the state that the last reset left behind: a clear, a failed apply, a restart, a config, or a PUT
   * outside the protocol. `acked` lists the edits acknowledged since then, in acknowledgement order.
   */
  datatype Conf = Conf(sys: Sys, clients: map<nat, Held>, base: S.State, acked: seq<Edit>)

  /**
   * A step of one client, of anybody else who PUTs (with any header, or none), or of the service; `Elsewhere`
   * changes the kernel behind the service's back in any way.
   */
  datatype Move =
    | Get(client: nat)
    | PutBack(client: nat, edit: Edit, docker: Docker)
    | Overwrite(body: Option<S.State>, ifMatch: string, docker: Docker)
    | ClearAll
    | Crash(chains: Listing, qdiscs: Listing)
    | Configure(desired: S.State, docker: Docker)
    | Elsewhere(w: World)

  /** The service moved on by itself: what it holds now is where edits start from again. */
  ghost function Rebased(c: Conf, sys: Sys): Conf {
    c.(sys := sys, base := sys.applied, acked := [])
  }

  /** A successful PUT answers with the state it stored and that state's tag, and the client goes on from these. */
  ghost function Held1(clients: map<nat, Held>, client: nat, response: Response): map<nat, Held> {
    if response.Success? && T.Encodable(response.state) then
      clients[client := Held(T.Encode(response.state), response.etag)]
    else clients
  }

  ghost function Move1(faults: Faults, hash: T.Hash, decode: Decoder, c: Conf, move: Move): Conf {
    match move
    case Get(client) =>
      var s := S.Clone(c.sys.applied);
      if T.Encodable(s) then c.(clients := c.clients[client := Held(T.Encode(s), T.Tag(hash, s))]) else c
    case PutBack(client, edit, docker) =>
      if client !in c.clients then c
      else
        var held := c.clients[client];
        var (s1, response) := PutState(faults, hash, c.sys, decode(edit(held.body)), held.tag, docker);
        if response.Success? then
          c.(sys := s1, clients := Held1(c.clients, client, response), acked := c.acked + [edit])
        else if s1.events == c.sys.events then c.(sys := s1)
        else Rebased(c, s1)
    case Overwrite(body, ifMatch, docker) =>
      var s1 := PutState(faults, hash, c.sys, body, ifMatch, docker).0;
      if s1.events == c.sys.events then c.(sys := s1) else Rebased(c, s1)
    case ClearAll => Rebased(c, PostClear(faults, c.sys).0)
    case Crash(chains, qdiscs) => Rebased(c, Runs.Restarted(faults, c.sys, chains, qdiscs))
    case Configure(desired, docker) =>
      var s1 := ApplyConfig(faults, c.sys, desired, docker);
      if s1.events == c.sys.events then c.(sys := s1) else Rebased(c, s1)
    case Elsewhere(w) => c.(sys := c.sys.(w := w))
  }

  ghost function Moves(faults: Faults, hash: T.Hash, decode: Decoder, c: Conf, moves: seq<Move>): Conf {
    if moves == [] then c
    else Move1(faults, hash, decode, Moves(faults, hash, decode, c, moves[..|moves| - 1]), moves[|moves| - 1])
  }

  /** The state an edit turns `s` into, when it is made on `s` itself. */
  ghost function Edited(decode: Decoder, s: S.State, edit: Edit): S.State {
    if T.Encodable(s) && decode(edit(T.Encode(s))).Some? then S.Clone(decode(edit(T.Encode(s))).value) else s
  }

  /** Each edit made on the result of the ones before it, the first one on `base`. */
  ghost function Folded(decode: Decoder, base: S.State, edits: seq<Edit>): S.State {
    if edits == [] then base else Edited(decode, Folded(decode, base, edits[..|edits| - 1]), edits[|edits| - 1])
  }

  /** Every client holds a body together with the tag of that very body. */
  ghost predicate Honest(hash: T.Hash, clients: map<nat, Held>) {
    forall k :: k in clients ==> clients[k].tag == T.Quoted(hash(clients[k].body))
  }

  ghost predicate InStep(hash: T.Hash, decode: Decoder, c: Conf) {
    && S.Clone(c.sys.applied) == c.sys.applied
    && Honest(hash, c.clients)
    && c.sys.applied == Folded(decode, c.base, c.acked)
  }

  /** No client holds anything yet, and whatever is applied, if anything, is where edits start from. */
  ghost predicate Opening(c: Conf) {
    S.Clone(c.sys.applied) == c.sys.applied && c.base == c.sys.applied && c.clients == map[] && c.acked == []
  }

  lemma CloneEmpty()
    ensures S.Clone(S.EMPTY) == S.EMPTY
  {
  }

  /**
   * What a PUT does to the applied state, as its response and events tell. A success carries the state that is now
   * applied with its tag, a refusal the tag of the state that it would have replaced.
   */
  lemma PutOutcome(faults: Faults, hash: T.Hash, s: Sys, body: Option<S.State>, ifMatch: string, docker: Docker)
    ensures var (s1, response) := PutState(faults, hash, s, body, ifMatch, docker);
            && (response.Success? ==>
                  && body.Some? && s1.applied == S.Clone(body.value)
                  && T.Encodable(s.applied) && T.Allows(ifMatch, T.Tag(hash, s.applied))
                  && response.state == s1.applied
                  && T.Encodable(s1.applied) && response.etag == T.Tag(hash, s1.applied))
            && (response.PreconditionFailed? ==>
                  s1 == s && T.Encodable(s.applied) && response.etag == T.Tag(hash, s.applied))
            && (s1.events == s.events ==> s1 == s && !response.Success?)
            && (!response.Success? && s1.events != s.events ==> s1.applied == S.EMPTY)
            && (response.PreconditionFailed? <==>
                  body.Some? && S.Valid(body.value) && T.Encodable(s.applied)
                  && !T.Allows(ifMatch, T.Tag(hash, s.applied)))
  {
    hide ApplyLocked, T.Allows;
    if body.Some? {
      Runs.ApplyLockedRecords(faults, s, body.value, docker);
    }
  }

  lemma ConfigOutcome(faults: Faults, s: Sys, desired: S.State, docker: Docker)
    ensures var s1 := ApplyConfig(faults, s, desired, docker);
            s1 == s || (s1.events != s.events && (s1.applied == S.EMPTY || s1.applied == S.Clone(desired)))
  {
    hide ApplyLocked, S.Valid, S.Clone;
    Runs.ApplyLockedRecords(faults, s, desired, docker);
  }

  lemma MoveInStep(faults: Faults, hash: T.Hash, decode: Decoder, c: Conf, move: Move)
    requires T.Digest(hash) && InStep(hash, decode, c)
    ensures InStep(hash, decode, Move1(faults, hash, decode, c, move))
  {
    hide PutState, PostClear, ApplyConfig, Runs.Restarted, T.Encode, S.Clone, T.Digest, T.Encodable;
    CloneEmpty();
    match move
    case Get(client) =>
    case PutBack(client, edit, docker) =>
      if client in c.clients {
        PutInStep(faults, hash, decode, c, client, edit, docker);
      }
    case Overwrite(body, ifMatch, docker) =>
      PutOutcome(faults, hash, c.sys, body, ifMatch, docker);
      if body.Some? {
        S.CloneIdempotent(body.value);
      }
    case ClearAll =>
      ClearResets(faults, c.sys);
    case Crash(chains, qdiscs) =>
      RestartResets(faults, c.sys, chains, qdiscs);
    case Configure(desired, docker) =>
      ConfigOutcome(faults, c.sys, desired, docker);
      S.CloneIdempotent(desired);
    case Elsewhere(w) =>
  }

  lemma ClearResets(faults: Faults, s: Sys)
    ensures PostClear(faults, s).0.applied == S.EMPTY
  {
  }

  lemma RestartResets(faults: Faults, s: Sys, chains: Listing, qdiscs: Listing)
    ensures Runs.Restarted(faults, s, chains, qdiscs).applied == S.EMPTY
  {
  }

  lemma PutInStep(faults: Faults, hash: T.Hash, decode: Decoder, c: Conf, client: nat, edit: Edit, docker: Docker)
    requires T.Digest(hash) && InStep(hash, decode, c) && client in c.clients
    ensures InStep(hash, decode, Move1(faults, hash, decode, c, PutBack(client, edit, docker)))
  {
    hide PutState, T.Encode, T.Digest, T.Allows;
    CloneEmpty();
    var held := c.clients[client];
    var body := decode(edit(held.body));
    PutOutcome(faults, hash, c.sys, body, held.tag, docker);
    var (s1, response) := PutState(faults, hash, c.sys, body, held.tag, docker);
    if response.Success? {
      T.OwnTagAllowsIff(hash, held.body, T.Encode(c.sys.applied));
      assert held.body == T.Encode(c.sys.applied);
      S.CloneIdempotent(body.value);
      assert (c.acked + [edit])[..|c.acked|] == c.acked;
      assert s1.applied == Edited(decode, c.sys.applied, edit);
    }
  }

  /**
   * No lost updates: in any interleaving of clients, configs and overwriting PUTs, with commands failing anywhere,
   * the applied state is the fold of the acknowledged edits, each made on the result of the ones acknowledged
   * before it, over what the last reset left behind.
   */
  lemma {:induction false} NoLostUpdates(faults: Faults, hash: T.Hash, decode: Decoder, start: Conf, moves: seq<Move>)
    requires T.Digest(hash) && Opening(start)
    ensures var c := Moves(faults, hash, decode, start, moves);
            c.sys.applied == Folded(decode, c.base, c.acked) && InStep(hash, decode, c)
  {
    hide Move1, InStep, T.Digest, S.Clone;
    if moves == [] {
      OpeningInStep(hash, decode, start);
    } else {
      var init := moves[..|moves| - 1];
      NoLostUpdates(faults, hash, decode, start, init);
      MoveInStep(faults, hash, decode, Moves(faults, hash, decode, start, init), moves[|moves| - 1]);
    }
    FoldedOf(hash, decode, Moves(faults, hash, decode, start, moves));
  }

  lemma OpeningInStep(hash: T.Hash, decode: Decoder, start: Conf)
    requires Opening(start)
    ensures InStep(hash, decode, start)
  {
  }

  lemma FoldedOf(hash: T.Hash, decode: Decoder, c: Conf)
    requires InStep(hash, decode, c)
    ensures c.sys.applied == Folded(decode, c.base, c.acked)
  {
  }

  /** A client's valid write is refused for a stale tag exactly when the state is no longer the one it read. */
  lemma RefusedIffStale(faults: Faults, hash: T.Hash, decode: Decoder, start: Conf, moves: seq<Move>,
                        client: nat, edit: Edit, docker: Docker)
    requires T.Digest(hash) && Opening(start)
    ensures var c := Moves(faults, hash, decode, start, moves);
            client in c.clients && T.Encodable(c.sys.applied) ==>
              var held := c.clients[client];
              var body := decode(edit(held.body));
              PutState(faults, hash, c.sys, body, held.tag, docker).1.PreconditionFailed?
              <==> body.Some? && S.Valid(body.value) && held.body != T.Encode(c.sys.applied)
  {
    NoLostUpdates(faults, hash, decode, start, moves);
    var c := Moves(faults, hash, decode, start, moves);
    hide Moves, PutState, T.Encode, T.Digest, T.Allows, Folded;
    if client in c.clients && T.Encodable(c.sys.applied) {
      var held := c.clients[client];
      PutOutcome(faults, hash, c.sys, decode(edit(held.body)), held.tag, docker);
      T.OwnTagAllowsIff(hash, held.body, T.Encode(c.sys.applied));
    }
  }

  /**
   * A client that goes on from the response of its own successful PUT may write again at once: it holds the state
   * that is applied, under that state's tag.
   */
  lemma MayWriteAgain(faults: Faults, hash: T.Hash, decode: Decoder, start: Conf, moves: seq<Move>,
                      client: nat, edit: Edit, docker: Docker, again: Edit, docker': Docker)
    requires T.Digest(hash) && Opening(start)
    ensures var c := Moves(faults, hash, decode, start, moves);
            client in c.clients ==>
              var (held, c1) := (c.clients[client], Move1(faults, hash, decode, c, PutBack(client, edit, docker)));
              PutState(faults, hash, c.sys, decode(edit(held.body)), held.tag, docker).1.Success? ==>
                && client in c1.clients && T.Encodable(c1.sys.applied)
                && c1.clients[client] == Held(T.Encode(c1.sys.applied), T.Tag(hash, c1.sys.applied))
                && var next := decode(again(c1.clients[client].body));
                   !PutState(faults, hash, c1.sys, next, c1.clients[client].tag, docker').1.PreconditionFailed?
  {
    var c := Moves(faults, hash, decode, start, moves);
    hide Moves, PutState, T.Encode, T.Digest, T.Allows;
    if client in c.clients {
      var held := c.clients[client];
      PutOutcome(faults, hash, c.sys, decode(edit(held.body)), held.tag, docker);
      var (s1, response) := PutState(faults, hash, c.sys, decode(edit(held.body)), held.tag, docker);
      if response.Success? {
        OwnTagPasses(faults, hash, s1, decode(again(T.Encode(s1.applied))), docker');
      }
    }
  }

  /** Under the tag of the applied state no write is refused as stale. */
  lemma OwnTagPasses(faults: Faults, hash: T.Hash, s: Sys, body: Option<S.State>, docker: Docker)
    requires T.Digest(hash) && T.Encodable(s.applied)
    ensures !PutState(faults, hash, s, body, T.Tag(hash, s.applied), docker).1.PreconditionFailed?
  {
    PutOutcome(faults, hash, s, body, T.Tag(hash, s.applied), docker);
    T.OwnTagAllowsIff(hash, T.Encode(s.applied), T.Encode(s.applied));
    hide PutState, T.Encode, T.Digest, T.Allows;
  }

  /**
   * A refusal helps the retry: it changes nothing and names the tag of the state that is applied. That is the tag
   * which the next GET gives, and neither a body sent under it nor an edit of what that GET read is refused again.
   */
  lemma RefusalAdmitsRetry(faults: Faults, hash: T.Hash, decode: Decoder, start: Conf, moves: seq<Move>, client: nat,
                           body: Option<S.State>, ifMatch: string, docker: Docker, edit: Edit)
    requires T.Digest(hash) && Opening(start)
    ensures var c := Moves(faults, hash, decode, start, moves);
            var (s1, refusal) := PutState(faults, hash, c.sys, body, ifMatch, docker);
            refusal.PreconditionFailed? ==>
              && s1 == c.sys
              && !PutState(faults, hash, c.sys, body, refusal.etag, docker).1.PreconditionFailed?
              && var c1 := Move1(faults, hash, decode, c, Get(client));
                 && c1.sys == c.sys
                 && client in c1.clients && c1.clients[client].tag == refusal.etag
                 && var next := decode(edit(c1.clients[client].body));
                    !PutState(faults, hash, c1.sys, next, c1.clients[client].tag, docker).1.PreconditionFailed?
  {
    NoLostUpdates(faults, hash, decode, start, moves);
    var c := Moves(faults, hash, decode, start, moves);
    hide Moves, PutState, T.Encode, T.Digest, T.Allows, Folded;
    PutOutcome(faults, hash, c.sys, body, ifMatch, docker);
    if PutState(faults, hash, c.sys, body, ifMatch, docker).1.PreconditionFailed? {
      OwnTagPasses(faults, hash, c.sys, body, docker);
      OwnTagPasses(faults, hash, c.sys, decode(edit(T.Encode(c.sys.applied))), docker);
    }
  }
}
