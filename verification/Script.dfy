/** What happens to a `SendMsg` call from outside, and what the run of its steps must then have been told. */
module Scripts {
  import opened Bytes
  import opened Rounds
  import opened Status
  import opened Endpoint
  import opened SendPath

  const SEND_MSG_MAX_TIMES: nat := 999
  const QUERY_MAX_TIMES: nat := 999

  datatype SendError =
    EmptyMessage | NoFreeSlot | OrderIDTooLarge | BadReply | TooManyQueries | WriteFailed | Timeout | Shutdown

  /** What happens to a `SendMsg` call: the body of a reply comes, or the acknowledgement, a timer fires,
      or the long timer of a query, writing fails after some segments, or the connection is shut down. */
  datatype Happening =
    Replied(code: byte, rest: bytes) | Acknowledged | Elapsed | Expired | WriteFails(after: nat) | Closed

  /** What a reply means to the call that waits for it. */
  function Decoded(code: byte, rest: bytes): Result<Status, SendError> {
    match DecodeStatus([code] + rest)
    case Ok(status) => Ok(status)
    case Err(_) => Err(BadReply)
  }

  /** Only code 2 says that the message has been received. */
  lemma OnlyTwoIsCompleted(code: byte, rest: bytes)
    ensures Decoded(code, rest) == Ok(Completed) <==> code == 2
  {
  }

  /* ---- news ---- */

  ghost predicate EndsIn(news: seq<News>, x: News) { news != [] && news[|news| - 1] == x }

  ghost function ButLast<T>(s: seq<T>): seq<T>
    requires s != []
  {
    s[..|s| - 1]
  }

  /** What one happening may add to the news so far: a reply the status that its body decodes to, the first
      acknowledgement itself, and a timer the end of a wait, or nothing if it is a second in which a query is
      not answered. */
  ghost predicate Adds(h: Happening, news: seq<News>, more: seq<News>) {
    match h
    case Replied(code, rest) => more == (if Decoded(code, rest).Ok? then [Answer(Decoded(code, rest).value)] else [])
    case Acknowledged => more == [Ack] || (more == [] && Ack in news)
    case Elapsed => more == [] || more == [WaitOver]
    case _ => more == []
  }

  /** The news are those of the script, in order. Request IDs are drawn in between. */
  ghost predicate Told(script: seq<Happening>, news: seq<News>)
    decreases |script| + |news|
  {
    if EndsIn(news, Asked) then Told(script, ButLast(news))
    else if script == [] then news == []
    else
      var before, h := ButLast(script), script[|script| - 1];
      || (Adds(h, news, []) && Told(before, news))
      || (news != [] && Adds(h, ButLast(news), [news[|news| - 1]]) && Told(before, ButLast(news)))
  }

  lemma {:induction false} ToldMore(script: seq<Happening>, news: seq<News>, h: Happening, more: seq<News>)
    requires Told(script, news) && Adds(h, news, more)
    ensures Told(script + [h], news + more)
    decreases |news|
  {
    hide Decoded;
    var all := script + [h];
    assert ButLast(all) == script && all[|all| - 1] == h;
    if more == [] {
      assert news + [] == news;
      if EndsIn(news, Asked) {
        var asked := ButLast(news);
        assert news == asked + [Asked];
        hide Told;
        ToldMore(script, asked, h, []);
        assert asked + [] == asked;
      }
    } else {
      assert ButLast(news + more) == news;
    }
  }

  lemma ToldNext(script: seq<Happening>, at: nat, news: seq<News>, more: seq<News>)
    requires at < |script| && Told(script[..at], news) && Adds(script[at], news, more)
    ensures Told(script[..at + 1], news + more)
  {
    ToldMore(script[..at], news, script[at], more);
    assert script[..at + 1] == script[..at] + [script[at]];
  }

  lemma ToldAsked(script: seq<Happening>, news: seq<News>)
    requires Told(script, news)
    ensures Told(script, news + [Asked])
  {
    assert ButLast(news + [Asked]) == news;
  }

  /** A happening that accounts for a piece of news. */
  ghost predicate Accounts(h: Happening, x: News) {
    match x
    case Answer(status) => h.Replied? && Decoded(h.code, h.rest) == Ok(status)
    case Ack => h.Acknowledged?
    case WaitOver => h.Elapsed?
    case Asked => false
  }

  /** There is no news without a happening. */
  lemma {:induction false} NewsHasCause(script: seq<Happening>, news: seq<News>, x: News) returns (i: nat)
    requires Told(script, news) && x in news && x != Asked
    ensures i < |script| && Accounts(script[i], x)
    decreases |script| + |news|
  {
    hide Decoded;
    if EndsIn(news, Asked) {
      assert news == ButLast(news) + [Asked];
      i := NewsHasCause(script, ButLast(news), x);
    } else {
      var h, before := script[|script| - 1], ButLast(script);
      if news[|news| - 1] == x && Accounts(h, x) {
        i := |script| - 1;
      } else if Told(before, news) {
        i := NewsHasCause(before, news, x);
      } else {
        assert news == ButLast(news) + [news[|news| - 1]];
        i := NewsHasCause(before, ButLast(news), x);
      }
    }
  }

  ghost function CountAsked(news: seq<News>): nat {
    if news == [] then 0 else CountAsked(ButLast(news)) + if EndsIn(news, Asked) then 1 else 0
  }

  lemma CountMore(news: seq<News>, x: News)
    ensures CountAsked(news + [x]) == CountAsked(news) + if x == Asked then 1 else 0
  {
    assert ButLast(news + [x]) == news;
  }

  /** Waits end only while there are rounds left: each before the 998th query. */
  ghost predicate OnTime(news: seq<News>) {
    forall j :: 0 <= j < |news| && news[j] == WaitOver ==> CountAsked(news[..j]) < SEND_MSG_MAX_TIMES - 1
  }

  lemma OnTimeMore(news: seq<News>, more: seq<News>)
    requires OnTime(news) && |more| <= 1 && (more == [WaitOver] ==> CountAsked(news) < SEND_MSG_MAX_TIMES - 1)
    ensures OnTime(news + more)
  {
    var all := news + more;
    assert forall j :: 0 <= j <= |news| ==> all[..j] == news[..j];
    assert news[..|news|] == news;
  }

  /* ---- outcomes ---- */

  /** Nothing but seconds passing and acknowledgements. */
  ghost predicate Quiet(script: seq<Happening>, from: nat, to: nat) {
    from <= to <= |script| && forall i :: from <= i < to ==> script[i].Elapsed? || script[i].Acknowledged?
  }

  ghost function CountElapsed(script: seq<Happening>, from: nat, to: nat): nat
    requires from <= to <= |script|
  {
    if from == to then 0 else CountElapsed(script, from, to - 1) + if script[to - 1].Elapsed? then 1 else 0
  }

  /** How a query that waits from `at` on ends: with the first happening that is neither an acknowledgement
      nor the passing of a second, or after 999 seconds. */
  ghost predicate QueryEnds(script: seq<Happening>, at: nat, at': nat, r: Result<Status, SendError>) {
    at <= at' <= |script| &&
    if r == Err(TooManyQueries) then Quiet(script, at, at') && CountElapsed(script, at, at') == QUERY_MAX_TIMES
    else if Quiet(script, at, |script|) then at' == |script| && r == Err(Shutdown)
    else
      && at < at' <= |script| && Quiet(script, at, at' - 1)
      && match script[at' - 1]
         case Replied(code, rest) => r == Decoded(code, rest)
         case Expired => r == Err(Timeout)
         case WriteFails(_) =>
           r == Err(if at' - 1 == at || script[at' - 2].Elapsed? then WriteFailed else Shutdown)
         case Closed => r == Err(Shutdown)
         case _ => false
  }

  /** How often it has been written by then: at first, and again after each second. */
  ghost function QueriesWritten(script: seq<Happening>, at: nat, at': nat, r: Result<Status, SendError>): nat
    requires at <= at' <= |script|
  {
    CountElapsed(script, at, at') + if r == Err(WriteFailed) || r == Err(TooManyQueries) then 0 else 1
  }

  /** The pass that follows the happening before `at`, and whether it is over the whole message. */
  ghost function PassAt(script: seq<Happening>, at: nat, count: nat): Option<(Round, bool)>
    requires at <= |script|
  {
    if at == 0 then Some((FullRound(count, SEND_WINDOW), true))
    else if !script[at - 1].Replied? then None
    else
      match Decoded(script[at - 1].code, script[at - 1].rest)
      case Ok(status) =>
        if status.Completed? then None else Some((PassAfter(status, count), !status.NotCompleted?))
      case Err(_) => None
  }

  /** A query follows: the pass is cut short, or a second has passed. */
  ghost predicate AsksNow(script: seq<Happening>, at: nat, count: nat) {
    && at <= |script|
    && match PassAt(script, at, count)
       case Some((pass, _)) => pass.after.ToQuery?
       case None => at > 0 && script[at - 1].Elapsed?
  }

  /** Whether the call sees this write fail: that of a query, or of a segment in a pass over the whole message. */
  ghost predicate SeesFailure(script: seq<Happening>, at: nat, count: nat) {
    && at < |script| && script[at].WriteFails?
    && (AsksNow(script, at, count)
        || match PassAt(script, at, count)
           case Some((pass, whole)) => whole && script[at].after < |pass.ids|
           case None => false)
  }

  ghost predicate Downs(h: Happening) { h.Closed? || h.Expired? || h.WriteFails? }

  /** What the last happening was when a call with this many segments returns an error after `asked` queries. */
  ghost predicate Explained(script: seq<Happening>, used: nat, e: SendError, count: nat, asked: nat) {
    && used <= |script|
    && match e
       case BadReply =>
         used > 0 && script[used - 1].Replied? && Decoded(script[used - 1].code, script[used - 1].rest).Err?
       case OrderIDTooLarge =>
         && used > 0 && script[used - 1].Replied?
         && var status := Decoded(script[used - 1].code, script[used - 1].rest);
            status.Ok? && status.value.NotCompleted? && exists id :: id in status.value.missing && id >= count
       case TooManyQueries => used >= QUERY_MAX_TIMES
       case WriteFailed => used > 0 && SeesFailure(script, used - 1, count)
       case Timeout =>
         used > 0 && (script[used - 1].Expired? || (script[used - 1].Elapsed? && asked >= SEND_MSG_MAX_TIMES - 1))
       case Shutdown =>
         if used > 0 && Downs(script[used - 1]) then !SeesFailure(script, used - 1, count)
         else used == |script| || script[used].Replied?
       case _ => false
  }

  lemma {:induction false} ElapsedIsFew(script: seq<Happening>, from: nat, to: nat)
    requires from <= to <= |script|
    ensures CountElapsed(script, from, to) <= to - from
  {
    if from < to {
      ElapsedIsFew(script, from, to - 1);
    }
  }

  lemma QueryErrorIsExplained(script: seq<Happening>, at: nat, at': nat, r: Result<Status, SendError>, count: nat,
                              asked: nat)
    requires QueryEnds(script, at, at', r) && r.Err? && AsksNow(script, at, count)
    ensures Explained(script, at', r.error, count, asked)
  {
    ElapsedIsFew(script, at, at');
    hide CountElapsed, DecodeStatus, PassAfter, FullRound;
  }

  /** Why a call may return nil: it has been acknowledged, or told that its message is complete. */
  ghost predicate HasReason(script: seq<Happening>, used: nat) {
    && used <= |script|
    && exists i :: 0 <= i < used && (script[i].Acknowledged? || (script[i].Replied? && script[i].code == COMPLETED))
  }

  lemma NewsIsReason(script: seq<Happening>, used: nat, news: seq<News>)
    requires used <= |script| && Told(script[..used], news) && (Ack in news || Answer(Completed) in news)
    ensures HasReason(script, used)
  {
    var i := NewsHasCause(script[..used], news, if Ack in news then Ack else Answer(Completed));
    assert script[..used][i] == script[i];
    if script[i].Replied? { OnlyTwoIsCompleted(script[i].code, script[i].rest); }
  }
}
