/** The pending-handler maps of ripcqccomponent: ripcqcserviceshost.cpp with its two data proxies. */
module Handlers {
  type Id = string
  type Handler = nat

  /** Author information after the conversion of its text to UTF-8. */
  datatype Status = Status(authorStatus: int, info: string)

  datatype Result = Author(status: Status) | Login(code: int)

  datatype Answer = Answer(handler: Handler, result: Result)

  const ERR_USER_UNDEFINED: int := 0x103

  /** `asked` lists the request ids passed on to the service, `answers` the invoked handlers. */
  datatype Host = Host(
    authors: map<Id, Handler>, logins: map<Id, Handler>, status: Status, notified: bool, signals: seq<string>,
    asked: seq<Id>, answers: seq<Answer>)

  datatype Op =
    | ReqAuthorStatus(id: Id, handler: Handler)
    | ReqUserLogin(id: Id, handler: Handler)
    | OnAuthorStatus(id: Id, authorised: bool, info: string)
    | OnLoginResult(id: Id, code: int)
    | OnServerAuthorStatus(authorised: bool, info: string)
    | IncomingConnection

  function Converted(authorised: bool, info: string): Status {
    Status(if authorised then 1 else 0, info)
  }

  /** One call of the host; `runner` says whether requests can be passed on. */
  function Apply(h: Host, op: Op, runner: bool): Host {
    match op
    case ReqAuthorStatus(id, handler) =>
      if id in h.authors then h.(answers := h.answers + [Answer(handler, Author(h.status))])
      else h.(authors := h.authors[id := handler], asked := if runner then h.asked + [id] else h.asked)
    case ReqUserLogin(id, handler) =>
      if id in h.logins then h.(answers := h.answers + [Answer(handler, Login(ERR_USER_UNDEFINED))])
      else h.(logins := h.logins[id := handler], asked := if runner then h.asked + [id] else h.asked)
    case OnAuthorStatus(id, authorised, info) =>
      var s := Converted(authorised, info);
      if id in h.authors then
        h.(status := s, authors := h.authors - {id}, answers := h.answers + [Answer(h.authors[id], Author(s))])
      else h.(status := s)
    case OnLoginResult(id, code) =>
      if id in h.logins then
        h.(logins := h.logins - {id}, answers := h.answers + [Answer(h.logins[id], Login(code))])
      else h
    case OnServerAuthorStatus(authorised, info) =>
      if h.notified then h
      else h.(status := Converted(authorised, info), signals := h.signals + [info], notified := true)
    case IncomingConnection => h.(notified := false)
  }

  function Run(h: Host, ops: seq<Op>, runner: bool): Host
    decreases |ops|
  {
    if ops == [] then h else Run(Apply(h, ops[0], runner), ops[1..], runner)
  }

  class ServicesHost {
    const runner: bool                 // m_pReqRunTask is set
    var authors: map<Id, Handler>    // m_mapAuthorStatusCob
    var logins: map<Id, Handler>     // m_mapLoginInfoCob
    var status: Status
    var notified: bool               // m_bFirstNotifyAuthorInfo
    var signals: seq<string>         // sigNotifyAuthorStatusChanged
    var asked: seq<Id>
    var answers: seq<Answer>

    ghost function Abs(): Host
      reads this
    {
      Host(authors, logins, status, notified, signals, asked, answers)
    }

    constructor (runner: bool)
      ensures this.runner == runner && Abs() == Host(map[], map[], Status(0, ""), false, [], [], [])
    {
      this.runner := runner;
      authors, logins, status, notified, signals := map[], map[], Status(0, ""), false, [];
      asked, answers := [], [];
    }

    /** -1 if the id is taken: std::map::insert keeps the old entry. */
    method SetAuthorHandler(id: Id, handler: Handler) returns (ret: int)
      modifies this`authors
      ensures ret == if id in old(authors) then -1 else 0
      ensures authors == if id in old(authors) then old(authors) else old(authors)[id := handler]
    {
      if id in authors {
        return -1;
      }
      authors := authors[id := handler];
      return 0;
    }

    method SetLoginHandler(id: Id, handler: Handler) returns (ret: int)
      modifies this`logins
      ensures ret == if id in old(logins) then -1 else 0
      ensures logins == if id in old(logins) then old(logins) else old(logins)[id := handler]
    {
      if id in logins {
        return -1;
      }
      logins := logins[id := handler];
      return 0;
    }

    method ReqAuthorStatus(id: Id, handler: Handler)
      modifies this
      ensures Abs() == Apply(old(Abs()), Op.ReqAuthorStatus(id, handler), runner)
    {
      var ret := SetAuthorHandler(id, handler);
      if ret < 0 {
        answers := answers + [Answer(handler, Author(status))];
      } else if runner {
        asked := asked + [id];
      }
    }

    method ReqUserLogin(id: Id, handler: Handler)
      modifies this
      ensures Abs() == Apply(old(Abs()), Op.ReqUserLogin(id, handler), runner)
    {
      var ret := SetLoginHandler(id, handler);
      if ret < 0 {
        answers := answers + [Answer(handler, Login(ERR_USER_UNDEFINED))];
      } else if runner {
        asked := asked + [id];
      }
    }

    method OnAuthorStatus(id: Id, authorised: bool, info: string)
      modifies this
      ensures Abs() == Apply(old(Abs()), Op.OnAuthorStatus(id, authorised, info), runner)
    {
      status := Converted(authorised, info);
      if id in authors {
        var handler := authors[id];
        authors := authors - {id};
        answers := answers + [Answer(handler, Author(status))];
      }
    }

    method OnLoginResult(id: Id, code: int)
      modifies this
      ensures Abs() == Apply(old(Abs()), Op.OnLoginResult(id, code), runner)
    {
      if id in logins {
        var handler := logins[id];
        logins := logins - {id};
        answers := answers + [Answer(handler, Login(code))];
      }
    }

    method OnServerAuthorStatus(authorised: bool, info: string)
      modifies this
      ensures Abs() == Apply(old(Abs()), Op.OnServerAuthorStatus(authorised, info), runner)
    {
      if !notified {
        status := Converted(authorised, info);
        signals := signals + [info];
        notified := true;
      }
    }

    /** The part of incomingConnection that the host keeps: the next notice counts as the first. */
    method IncomingConnection()
      modifies this`notified
      ensures Abs() == Apply(old(Abs()), Op.IncomingConnection, runner)
    {
      notified := false;
    }
  }

  // ---------------------------------------------------------------- conservation

  function Entries(m: map<Id, Handler>, handler: Handler): set<Id> {
    set k | k in m && m[k] == handler
  }

  function Pending(h: Host, handler: Handler): nat {
    |Entries(h.authors, handler)| + |Entries(h.logins, handler)|
  }

  function Invoked(answers: seq<Answer>, handler: Handler): nat {
    if answers == [] then 0
    else Invoked(answers[..|answers|-1], handler) + (if answers[|answers|-1].handler == handler then 1 else 0)
  }

  function Handed(op: Op, handler: Handler): nat {
    if (op.ReqAuthorStatus? || op.ReqUserLogin?) && op.handler == handler then 1 else 0
  }

  function HandedIn(ops: seq<Op>, handler: Handler): nat {
    if ops == [] then 0 else Handed(ops[0], handler) + HandedIn(ops[1..], handler)
  }

  lemma EntriesInsert(m: map<Id, Handler>, id: Id, v: Handler, handler: Handler)
    requires id !in m
    ensures |Entries(m[id := v], handler)| == |Entries(m, handler)| + (if v == handler then 1 else 0)
  {
    assert Entries(m[id := v], handler) == Entries(m, handler) + (if v == handler then {id} else {});
  }

  lemma EntriesRemove(m: map<Id, Handler>, id: Id, handler: Handler)
    requires id in m
    ensures |Entries(m, handler)| == |Entries(m - {id}, handler)| + (if m[id] == handler then 1 else 0)
  {
    assert Entries(m, handler) == Entries(m - {id}, handler) + (if m[id] == handler then {id} else {});
  }

  lemma InvokedMore(answers: seq<Answer>, a: Answer, handler: Handler)
    ensures Invoked(answers + [a], handler) == Invoked(answers, handler) + (if a.handler == handler then 1 else 0)
  {
    assert (answers + [a])[..|answers|] == answers;
  }

  lemma ConservedStep(h: Host, op: Op, runner: bool, handler: Handler)
    ensures var r := Apply(h, op, runner);
            Pending(r, handler) + Invoked(r.answers, handler)
            == Pending(h, handler) + Invoked(h.answers, handler) + Handed(op, handler)
  {
    var r := Apply(h, op, runner);
    if |r.answers| > |h.answers| {
      InvokedMore(h.answers, r.answers[|h.answers|], handler);
    }
    match op
    case ReqAuthorStatus(id, v) => if id !in h.authors { EntriesInsert(h.authors, id, v, handler); }
    case ReqUserLogin(id, v) => if id !in h.logins { EntriesInsert(h.logins, id, v, handler); }
    case OnAuthorStatus(id, _, _) => if id in h.authors { EntriesRemove(h.authors, id, handler); }
    case OnLoginResult(id, _) => if id in h.logins { EntriesRemove(h.logins, id, handler); }
    case OnServerAuthorStatus(_, _) =>
    case IncomingConnection =>
  }

  /**
   Over any run, also with repeated ids: each handler has been invoked as often as it was handed
   in, minus the map entries in which it is still waiting.
   */
  lemma {:induction false} EveryHandlerAnsweredOrPending(h: Host, ops: seq<Op>, runner: bool, handler: Handler)
    ensures var r := Run(h, ops, runner);
            Pending(r, handler) + Invoked(r.answers, handler)
            == Pending(h, handler) + Invoked(h.answers, handler) + HandedIn(ops, handler)
    decreases |ops|
  {
    if ops != [] {
      ConservedStep(h, ops[0], runner, handler);
      EveryHandlerAnsweredOrPending(Apply(h, ops[0], runner), ops[1..], runner, handler);
    }
  }

  /** Whatever else happens, the first handler registered under an id stays until its result. */
  lemma {:induction false} FirstHandlerStays(h: Host, ops: seq<Op>, runner: bool, id: Id)
    ensures id in h.authors && (forall op <- ops :: op.OnAuthorStatus? ==> op.id != id) ==>
              id in Run(h, ops, runner).authors && Run(h, ops, runner).authors[id] == h.authors[id]
    ensures id in h.logins && (forall op <- ops :: op.OnLoginResult? ==> op.id != id) ==>
              id in Run(h, ops, runner).logins && Run(h, ops, runner).logins[id] == h.logins[id]
    decreases |ops|
  {
    if ops != [] {
      FirstHandlerStays(Apply(h, ops[0], runner), ops[1..], runner, id);
    }
  }

  lemma {:induction false} RunConcat(h: Host, a: seq<Op>, b: seq<Op>, runner: bool)
    ensures Run(h, a + b, runner) == Run(Run(h, a, runner), b, runner)
    decreases |a|
  {
    if a == [] {
      assert a + b == b;
    } else {
      assert (a + b)[1..] == a[1..] + b;
      RunConcat(Apply(h, a[0], runner), a[1..], b, runner);
    }
  }

  /** The first result for an id answers the first handler registered under it, and removes it. */
  lemma ResultAnswersItsHandler(h: Host, id: Id, handler: Handler, ops: seq<Op>, runner: bool, authorised: bool, info: string)
    requires id !in h.authors && forall op <- ops :: op.OnAuthorStatus? ==> op.id != id
    ensures var before := Run(h, [ReqAuthorStatus(id, handler)] + ops, runner);
            var after := Run(h, [ReqAuthorStatus(id, handler)] + ops + [OnAuthorStatus(id, authorised, info)], runner);
            && after.answers == before.answers + [Answer(handler, Author(Status(if authorised then 1 else 0, info)))]
            && id !in after.authors
  {
    var first := ReqAuthorStatus(id, handler);
    var last := OnAuthorStatus(id, authorised, info);
    var h1 := Apply(h, first, runner);
    assert ([first] + ops)[1..] == ops;
    FirstHandlerStays(h1, ops, runner, id);
    RunConcat(h, [first] + ops, [last], runner);
    var before := Run(h, [first] + ops, runner);
    assert [last][1..] == [];
    assert Run(before, [last], runner) == Apply(before, last, runner);
  }

  lemma LoginAnswersItsHandler(h: Host, id: Id, handler: Handler, ops: seq<Op>, runner: bool, code: int)
    requires id !in h.logins && forall op <- ops :: op.OnLoginResult? ==> op.id != id
    ensures var before := Run(h, [ReqUserLogin(id, handler)] + ops, runner);
            var after := Run(h, [ReqUserLogin(id, handler)] + ops + [OnLoginResult(id, code)], runner);
            && after.answers == before.answers + [Answer(handler, Login(code))]
            && id !in after.logins
  {
    var first := ReqUserLogin(id, handler);
    var last := OnLoginResult(id, code);
    var h1 := Apply(h, first, runner);
    assert ([first] + ops)[1..] == ops;
    FirstHandlerStays(h1, ops, runner, id);
    RunConcat(h, [first] + ops, [last], runner);
    var before := Run(h, [first] + ops, runner);
    assert [last][1..] == [];
    assert Run(before, [last], runner) == Apply(before, last, runner);
  }

  /** The server has given a notice since the last connection came in. */
  predicate Heard(ops: seq<Op>, before: bool) {
    if ops == [] then before
    else
      var last := ops[|ops| - 1];
      if last.IncomingConnection? then false
      else last.OnServerAuthorStatus? || Heard(ops[..|ops| - 1], before)
  }

  /** A result reports a status, and so does a notice that is the first since a connection came in. */
  predicate Reports(front: seq<Op>, last: Op, heard: bool) {
    last.OnAuthorStatus? || (last.OnServerAuthorStatus? && !Heard(front, heard))
  }

  /** The status reported last in a run, or the one before it. */
  function Latest(ops: seq<Op>, before: Status, heard: bool): Status {
    if ops == [] then before
    else
      var front, last := ops[..|ops| - 1], ops[|ops| - 1];
      if Reports(front, last, heard) then Status(if last.authorised then 1 else 0, last.info)
      else Latest(front, before, heard)
  }

  /** What the clients are told: the text of every notice that reports. */
  function Notices(ops: seq<Op>, heard: bool): seq<string> {
    if ops == [] then []
    else
      var front, last := ops[..|ops| - 1], ops[|ops| - 1];
      Notices(front, heard) + if last.OnServerAuthorStatus? && !Heard(front, heard) then [last.info] else []
  }

  /** What one more call does to the status, the flag and the signals. */
  lemma CacheStep(h: Host, op: Op, runner: bool)
    ensures var r := Apply(h, op, runner);
            var news := op.OnServerAuthorStatus? && !h.notified;
            && r.status == (if op.OnAuthorStatus? || news then Converted(op.authorised, op.info) else h.status)
            && r.notified == (!op.IncomingConnection? && (op.OnServerAuthorStatus? || h.notified))
            && r.signals == h.signals + (if news then [op.info] else [])
  {
  }

  /** The cache holds the status reported last, and the clients have been told of exactly the notices that report. */
  lemma {:induction false} CacheIsLatest(h: Host, ops: seq<Op>, runner: bool)
    ensures Run(h, ops, runner).status == Latest(ops, h.status, h.notified)
    ensures Run(h, ops, runner).notified == Heard(ops, h.notified)
    ensures Run(h, ops, runner).signals == h.signals + Notices(ops, h.notified)
    decreases |ops|
  {
    if ops != [] {
      var front, last := ops[..|ops| - 1], ops[|ops| - 1];
      CacheIsLatest(h, front, runner);
      var before := Run(h, front, runner);
      RunLast(h, ops, runner, before);
      CacheStep(before, last, runner);
    }
  }

  lemma RunLast(h: Host, ops: seq<Op>, runner: bool, before: Host)
    requires ops != [] && before == Run(h, ops[..|ops| - 1], runner)
    ensures Run(h, ops, runner) == Apply(before, ops[|ops| - 1], runner)
  {
    var front, last := ops[..|ops| - 1], ops[|ops| - 1];
    assert ops == front + [last];
    RunConcat(h, front, [last], runner);
    RunOne(before, last, runner);
  }

  lemma RunOne(h: Host, op: Op, runner: bool)
    ensures Run(h, [op], runner) == Apply(h, op, runner)
  {
    assert [op][1..] == [];
  }

  /**
   A request whose id is still pending is answered at once with the status reported last, and the
   handler registered first keeps its place.
   */
  lemma DuplicateGetsLatest(h: Host, ops: seq<Op>, runner: bool, id: Id, handler: Handler)
    requires id in Run(h, ops, runner).authors
    ensures var before := Run(h, ops, runner);
            var after := Run(h, ops + [ReqAuthorStatus(id, handler)], runner);
            && after.answers == before.answers + [Answer(handler, Author(Latest(ops, h.status, h.notified)))]
            && after.authors == before.authors && after.asked == before.asked
  {
    var last := ReqAuthorStatus(id, handler);
    RunConcat(h, ops, [last], runner);
    CacheIsLatest(h, ops, runner);
    RunOne(Run(h, ops, runner), last, runner);
  }

  predicate AllAsked(h: Host) {
    (forall id <- h.authors :: id in h.asked) && (forall id <- h.logins :: id in h.asked)
  }

  lemma AllAskedStep(h: Host, op: Op)
    requires AllAsked(h)
    ensures AllAsked(Apply(h, op, true))
  {
  }

  /** With a runner, an id waits only if its request was passed on to the service. */
  lemma {:induction false} PendingWasAsked(h: Host, ops: seq<Op>)
    requires AllAsked(h)
    ensures AllAsked(Run(h, ops, true))
    decreases |ops|
  {
    if ops != [] {
      AllAskedStep(h, ops[0]);
      PendingWasAsked(Apply(h, ops[0], true), ops[1..]);
    }
  }

  /** A log-in whose id is still pending is refused at once as an undefined user, and nothing is asked for it. */
  lemma DuplicateLoginRefused(h: Host, ops: seq<Op>, runner: bool, id: Id, handler: Handler)
    requires id in Run(h, ops, runner).logins
    ensures var before := Run(h, ops, runner);
            Run(h, ops + [ReqUserLogin(id, handler)], runner)
            == before.(answers := before.answers + [Answer(handler, Login(0x103))])
  {
    RunConcat(h, ops, [ReqUserLogin(id, handler)], runner);
    RunOne(Run(h, ops, runner), ReqUserLogin(id, handler), runner);
  }

  /** A request with a new id waits for its result, and is passed on exactly if there is a runner. */
  lemma NewRequestWaits(h: Host, ops: seq<Op>, runner: bool, id: Id, handler: Handler)
    requires id !in Run(h, ops, runner).authors
    ensures var before := Run(h, ops, runner);
            Run(h, ops + [ReqAuthorStatus(id, handler)], runner)
            == before.(authors := before.authors[id := handler], asked := before.asked + if runner then [id] else [])
  {
    RunConcat(h, ops, [ReqAuthorStatus(id, handler)], runner);
    RunOne(Run(h, ops, runner), ReqAuthorStatus(id, handler), runner);
  }

  /** A result for an id nobody waits under changes the cached status at most, and answers nobody. */
  lemma StrayResults(h: Host, ops: seq<Op>, runner: bool, id: Id, code: int, authorised: bool, info: string)
    ensures var before := Run(h, ops, runner);
            && (id !in before.logins ==> Run(h, ops + [OnLoginResult(id, code)], runner) == before)
            && (id !in before.authors ==>
                  Run(h, ops + [OnAuthorStatus(id, authorised, info)], runner)
                  == before.(status := Status(if authorised then 1 else 0, info)))
  {
    var before := Run(h, ops, runner);
    RunConcat(h, ops, [OnLoginResult(id, code)], runner);
    RunOne(before, OnLoginResult(id, code), runner);
    RunConcat(h, ops, [OnAuthorStatus(id, authorised, info)], runner);
    RunOne(before, OnAuthorStatus(id, authorised, info), runner);
  }
}
