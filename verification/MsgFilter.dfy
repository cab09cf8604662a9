/** The ante decorator that rejects a transaction holding a blocked message, however deep it is nested in
    `MsgExec` messages. */
module MsgFilter {
  const EXEC_NAME := "cosmos.authz.v1beta1.MsgExec"

  /** A `MsgExec` carries packed messages: unpacking them yields `msgs`, or fails. */
  datatype Msg = Plain(name: string) | Exec(msgs: seq<Msg>) | UndecodableExec

  function MessageName(m: Msg): string {
    if m.Plain? then m.name else EXEC_NAME
  }

  // The scan over the blocked types.
  predicate NameBlocked(blocked: seq<string>, name: string) {
    blocked != [] && (name == blocked[0] || NameBlocked(blocked[1..], name))
  }

  predicate HasDisallowedMessage(blocked: seq<string>, msgs: seq<Msg>)
    decreases msgs
  {
    msgs != [] &&
    var msg := msgs[0];
    || msg.UndecodableExec?
    || (msg.Exec? && HasDisallowedMessage(blocked, msg.msgs))
    || NameBlocked(blocked, MessageName(msg))
    || HasDisallowedMessage(blocked, msgs[1..])
  }

  // ---------------------------------------------------------------- what it is meant to find

  /** `path` leads from the top-level list down to `m`, one index per nesting level. */
  predicate Reaches(msgs: seq<Msg>, path: seq<nat>, m: Msg)
    decreases path
  {
    path != [] && path[0] < |msgs| &&
    var at := msgs[path[0]];
    if |path| == 1 then m == at
    else at.Exec? && Reaches(at.msgs, path[1..], m)
  }

  predicate Bad(blocked: seq<string>, m: Msg) {
    match m
    case Plain(name) => name in blocked
    case Exec(_) => "cosmos.authz.v1beta1.MsgExec" in blocked
    case UndecodableExec => true
  }

  function Flatten(msgs: seq<Msg>): seq<Msg>
    decreases msgs
  {
    if msgs == [] then []
    else [msgs[0]]
         + (if msgs[0].Exec? then Flatten(msgs[0].msgs) else [])
         + Flatten(msgs[1..])
  }

  ghost predicate SomeBad(blocked: seq<string>, msgs: seq<Msg>) {
    exists path, m :: Reaches(msgs, path, m) && Bad(blocked, m)
  }

  lemma {:induction false} NameBlockedIsMembership(blocked: seq<string>, name: string)
    ensures NameBlocked(blocked, name) <==> name in blocked
  {
    if blocked != [] {
      NameBlockedIsMembership(blocked[1..], name);
    }
  }

  /** What the search finds is there ... */
  lemma {:induction false} RejectionHasAWitness(blocked: seq<string>, msgs: seq<Msg>) returns (path: seq<nat>, m: Msg)
    requires HasDisallowedMessage(blocked, msgs)
    ensures Reaches(msgs, path, m) && Bad(blocked, m)
    decreases msgs
  {
    var msg := msgs[0];
    NameBlockedIsMembership(blocked, MessageName(msg));
    if Bad(blocked, msg) {
      path, m := [0], msg;
    } else if msg.Exec? && HasDisallowedMessage(blocked, msg.msgs) {
      path, m := RejectionHasAWitness(blocked, msg.msgs);
      path := [0] + path;
    } else {
      path, m := RejectionHasAWitness(blocked, msgs[1..]);
      assert msgs[1..][path[0]] == msgs[path[0] + 1];
      path := [path[0] + 1] + path[1..];
    }
  }

  /** ... and what is there is found. */
  lemma {:induction false} WitnessIsRejected(blocked: seq<string>, msgs: seq<Msg>, path: seq<nat>, m: Msg)
    requires Reaches(msgs, path, m) && Bad(blocked, m)
    ensures HasDisallowedMessage(blocked, msgs)
    decreases msgs
  {
    var msg := msgs[0];
    NameBlockedIsMembership(blocked, MessageName(msg));
    if path[0] > 0 {
      assert msgs[1..][path[0] - 1] == msgs[path[0]];
      assert ([path[0] - 1] + path[1..])[1..] == path[1..];
      WitnessIsRejected(blocked, msgs[1..], [path[0] - 1] + path[1..], m);
    } else if |path| > 1 {
      WitnessIsRejected(blocked, msg.msgs, path[1..], m);
    }
  }

  lemma RejectsIffSomeBad(blocked: seq<string>, msgs: seq<Msg>)
    ensures HasDisallowedMessage(blocked, msgs) <==> SomeBad(blocked, msgs)
  {
    if HasDisallowedMessage(blocked, msgs) {
      var path, m := RejectionHasAWitness(blocked, msgs);
    }
    if path, m :| Reaches(msgs, path, m) && Bad(blocked, m) {
      WitnessIsRejected(blocked, msgs, path, m);
    }
  }

  /** The early-exit search is a flatten followed by a scan. */
  lemma {:induction false} RejectsIffFlattenedBad(blocked: seq<string>, msgs: seq<Msg>)
    ensures HasDisallowedMessage(blocked, msgs) <==> exists m :: m in Flatten(msgs) && Bad(blocked, m)
    decreases msgs
  {
    if msgs != [] {
      var msg, rest := msgs[0], Flatten(msgs[1..]);
      var inner := if msg.Exec? then Flatten(msg.msgs) else [];
      NameBlockedIsMembership(blocked, MessageName(msg));
      RejectsIffFlattenedBad(blocked, msgs[1..]);
      if msg.Exec? {
        RejectsIffFlattenedBad(blocked, msg.msgs);
      }
      assert Flatten(msgs) == [msg] + inner + rest;
      if m :| m in Flatten(msgs) && Bad(blocked, m) {
        assert m == msg || m in inner || m in rest;
      }
      if Bad(blocked, msg) {
        assert msg in Flatten(msgs);
      }
      forall m | (m in inner || m in rest) && Bad(blocked, m) ensures m in Flatten(msgs) {
      }
    }
  }

  // ---------------------------------------------------------------- algebra

  lemma RejectionGrowsWithTheList(blocked: seq<string>, more: seq<string>, msgs: seq<Msg>)
    requires forall name :: name in blocked ==> name in more
    ensures HasDisallowedMessage(blocked, msgs) ==> HasDisallowedMessage(more, msgs)
  {
    RejectsIffFlattenedBad(blocked, msgs);
    RejectsIffFlattenedBad(more, msgs);
  }

  lemma RejectionUnion(b1: seq<string>, b2: seq<string>, msgs: seq<Msg>)
    ensures HasDisallowedMessage(b1 + b2, msgs) <==> HasDisallowedMessage(b1, msgs) || HasDisallowedMessage(b2, msgs)
  {
    RejectsIffFlattenedBad(b1, msgs);
    RejectsIffFlattenedBad(b2, msgs);
    RejectsIffFlattenedBad(b1 + b2, msgs);
    if m :| m in Flatten(msgs) && Bad(b1 + b2, m) {
      assert Bad(b1, m) || Bad(b2, m);
    }
    forall m | Bad(b1, m) || Bad(b2, m) ensures Bad(b1 + b2, m) {
    }
  }

  lemma {:induction false} RejectionDistributes(blocked: seq<string>, xs: seq<Msg>, ys: seq<Msg>)
    ensures HasDisallowedMessage(blocked, xs + ys)
       <==> HasDisallowedMessage(blocked, xs) || HasDisallowedMessage(blocked, ys)
  {
    if xs == [] {
      assert xs + ys == ys;
    } else {
      assert (xs + ys)[1..] == xs[1..] + ys;
      RejectionDistributes(blocked, xs[1..], ys);
    }
  }

  /** `m` inside `depth` layers of `MsgExec`. */
  function Wrap(depth: nat, m: Msg): Msg {
    if depth == 0 then m else Exec([Wrap(depth - 1, m)])
  }

  /** No amount of wrapping hides a message; unless `MsgExec` itself is blocked, wrapping adds no rejection either. */
  lemma {:induction false} WrappingHidesNothing(blocked: seq<string>, depth: nat, m: Msg)
    ensures HasDisallowedMessage(blocked, [Wrap(depth, m)])
       <==> HasDisallowedMessage(blocked, [m]) || (depth > 0 && EXEC_NAME in blocked)
  {
    if depth > 0 {
      WrappingHidesNothing(blocked, depth - 1, m);
      NameBlockedIsMembership(blocked, EXEC_NAME);
    }
  }

  // ---------------------------------------------------------------- the ante chain

  datatype Ctx = Ctx(height: int, tag: nat)
  datatype AnteResult = Passed(ctx: Ctx) | Rejected(ctx: Ctx, height: int)

  type AnteHandler = (Ctx, seq<Msg>, bool) -> AnteResult

  datatype MsgFilterDecorator = MsgFilterDecorator(blockedTypes: seq<string>) {
    function AnteHandle(ctx: Ctx, msgs: seq<Msg>, simulate: bool, next: AnteHandler): AnteResult {
      if HasDisallowedMessage(blockedTypes, msgs) then Rejected(ctx, ctx.height)
      else next(ctx, msgs, simulate)
    }
  }

  /** The decorators run in order, each handing over through `next`. */
  function Chain(filters: seq<MsgFilterDecorator>, last: AnteHandler): AnteHandler {
    if filters == [] then last
    else (ctx, msgs, simulate) => filters[0].AnteHandle(ctx, msgs, simulate, Chain(filters[1..], last))
  }

  function AllBlocked(filters: seq<MsgFilterDecorator>): seq<string> {
    if filters == [] then [] else filters[0].blockedTypes + AllBlocked(filters[1..])
  }

  /** A filter stops a transaction, at the context's height, if and only if some path in it leads to a blocked name or
      an undecodable `MsgExec`; any other it hands on untouched. */
  lemma FilterDecides(blocked: seq<string>, ctx: Ctx, msgs: seq<Msg>, simulate: bool, next: AnteHandler)
    ensures var r := MsgFilterDecorator(blocked).AnteHandle(ctx, msgs, simulate, next);
            r == if SomeBad(blocked, msgs) then Rejected(ctx, ctx.height) else next(ctx, msgs, simulate)
  {
    RejectsIffSomeBad(blocked, msgs);
  }

  /** A chain of filters stops a transaction if and only if some path in it leads to a message that one of them blocks;
      any other reaches the end of the chain. */
  lemma {:induction false} ChainDecides(filters: seq<MsgFilterDecorator>, last: AnteHandler, ctx: Ctx, msgs: seq<Msg>,
                                        simulate: bool)
    ensures Chain(filters, last)(ctx, msgs, simulate)
         == if exists f :: f in filters && SomeBad(f.blockedTypes, msgs) then Rejected(ctx, ctx.height)
            else last(ctx, msgs, simulate)
  {
    if filters != [] {
      var first, rest := filters[0], filters[1..];
      assert Chain(filters, last)(ctx, msgs, simulate) == first.AnteHandle(ctx, msgs, simulate, Chain(rest, last));
      FilterDecides(first.blockedTypes, ctx, msgs, simulate, Chain(rest, last));
      ChainDecides(rest, last, ctx, msgs, simulate);
      hide SomeBad, Chain;
      assert forall f :: f in filters <==> f == first || f in rest;
    }
  }

  /** A non-empty chain of filters is one filter with all their blocked types, down to the error it reports. */
  lemma {:induction false} ChainIsOneFilter(filters: seq<MsgFilterDecorator>, last: AnteHandler, ctx: Ctx,
                                            msgs: seq<Msg>, simulate: bool)
    requires filters != []
    ensures Chain(filters, last)(ctx, msgs, simulate)
         == MsgFilterDecorator(AllBlocked(filters)).AnteHandle(ctx, msgs, simulate, last)
  {
    var first, rest := filters[0], filters[1..];
    RejectionUnion(first.blockedTypes, AllBlocked(rest), msgs);
    assert Chain(filters, last)(ctx, msgs, simulate) == first.AnteHandle(ctx, msgs, simulate, Chain(rest, last));
    if rest != [] {
      ChainIsOneFilter(rest, last, ctx, msgs, simulate);
    } else {
      assert Chain(rest, last) == last;
      assert AllBlocked(filters) == first.blockedTypes;
    }
  }

  /** Order and repetition of the filters do not matter. */
  lemma ChainOrderIrrelevant(f: seq<MsgFilterDecorator>, g: seq<MsgFilterDecorator>, last: AnteHandler, ctx: Ctx,
                             msgs: seq<Msg>, simulate: bool)
    requires f != [] && g != []
    requires forall name :: name in AllBlocked(f) <==> name in AllBlocked(g)
    ensures Chain(f, last)(ctx, msgs, simulate) == Chain(g, last)(ctx, msgs, simulate)
  {
    ChainIsOneFilter(f, last, ctx, msgs, simulate);
    ChainIsOneFilter(g, last, ctx, msgs, simulate);
    RejectionGrowsWithTheList(AllBlocked(f), AllBlocked(g), msgs);
    RejectionGrowsWithTheList(AllBlocked(g), AllBlocked(f), msgs);
  }
}
