/** The wallet hold around an LLM call: reserve, call upstream, then settle or release, under faults at any point.
    Every outside call takes its outcome as a parameter, so the contracts hold for all combinations of outcomes. */
module WalletProtocol {
  import opened Basics
  import opened Metering

  /** An exception: one that FastAPI turns into a response, or any other. */
  datatype Fault = Http | Other

  /** What comes of a request: it is done, or it fails, or it is done and the answer is lost on the way. */
  datatype Report = Fine | Failed(fault: Fault) | Lost(fault: Fault)

  /** What the caller sees of it. */
  function FaultOf(r: Report): Option<Fault> {
    if r.Fine? then None else Some(r.fault)
  }

  /** A request sent to the wallet, with whether it took effect there. */
  datatype Call =
    | Preauth(amount: int, requestId: string, held: bool)
    | Settle(holdNo: string, amount: int, requestId: string, done: bool)
    | Release(holdNo: string, requestId: string, done: bool)

  datatype Hold = Hold(holdNo: string, amount: int, enabled: bool)

  /** The Java wallet's answer to a request for a hold; one that is lost leaves the hold made and its number unknown. */
  datatype HoldAnswer = Granted(holdNo: string, amount: int) | Refused(fault: Fault) | GrantLost(fault: Fault)

  /** The wallet client; `calls` are the requests it has sent. Without a login token it raises before sending any. */
  class WalletClient {
    const javaBackend: bool
    var calls: seq<Call>

    constructor (javaBackend: bool)
      ensures this.javaBackend == javaBackend && calls == []
    {
      this.javaBackend := javaBackend;
      calls := [];
    }

    method Preauthorize(authorization: string, amount: int, requestId: string, answer: HoldAnswer)
      returns (r: Result<Hold, Fault>)
      modifies this
      ensures calls == old(calls) + if javaBackend && authorization != ""
                                    then [Preauth(amount, requestId, !answer.Refused?)] else []
      ensures r == if !javaBackend then Ok(Hold("debug-" + requestId, amount, false))
                   else if authorization == "" then Err(Http)
                   else if answer.Granted? then Ok(Hold(answer.holdNo, answer.amount, true))
                   else Err(answer.fault)
    {
      if !javaBackend {
        return Ok(Hold("debug-" + requestId, amount, false));
      }
      if authorization == "" {
        return Err(Http);
      }
      calls := calls + [Preauth(amount, requestId, !answer.Refused?)];
      match answer
      case Granted(holdNo, granted) => return Ok(Hold(holdNo, granted, true));
      case Refused(fault) => return Err(fault);
      case GrantLost(fault) => return Err(fault);
    }

    method SettleHold(authorization: string, hold: Hold, amount: int, requestId: string, report: Report)
      returns (f: Option<Fault>)
      modifies this
      ensures calls == old(calls) + if hold.enabled && authorization != ""
                                    then [Settle(hold.holdNo, amount, requestId, !report.Failed?)] else []
      ensures f == if !hold.enabled then None else if authorization == "" then Some(Http) else FaultOf(report)
    {
      if !hold.enabled {
        return None;
      }
      if authorization == "" {
        return Some(Http);
      }
      calls := calls + [Settle(hold.holdNo, amount, requestId, !report.Failed?)];
      return FaultOf(report);
    }

    method ReleaseHold(authorization: string, hold: Hold, requestId: string, report: Report)
      returns (f: Option<Fault>)
      modifies this
      ensures calls == old(calls) + if hold.enabled && authorization != ""
                                    then [Release(hold.holdNo, requestId, !report.Failed?)] else []
      ensures f == if !hold.enabled then None else if authorization == "" then Some(Http) else FaultOf(report)
    {
      if !hold.enabled {
        return None;
      }
      if authorization == "" {
        return Some(Http);
      }
      calls := calls + [Release(hold.holdNo, requestId, !report.Failed?)];
      return FaultOf(report);
    }
  }

  // ----- one request -----

  /** What is fixed before the upstream is called; `row` is the model's enabled row of the price table, if there is one,
      and `authorization` the request's login header. */
  datatype Request = Request(requestId: string, authorization: string, byok: bool, contents: seq<string>,
                             maxTokens: Option<int>, row: Option<Price>, defaults: Price, multiplier: real,
                             defaultTokens: int, floor: real)

  datatype Upstream = Raises(fault: Fault) | NotOk | Replies(content: string, usage: RawUsage)

  /** The outcomes of everything behind the hold. A log that "fails" raises. */
  datatype Faults = Faults(meter: Option<Fault>, settle: Report, saveSuccess: Option<Fault>,
                           upstreamLog: Option<Fault>, handlerLog: Option<Fault>, release: Report)

  datatype Reply = Reply(content: string, usage: Usage, charge: int, billed: bool)

  function PreauthAmount(req: Request): int {
    EstimatePreauthorization(ModelPrice(req.row, req.defaults), req.multiplier, req.contents, req.maxTokens,
                             req.defaultTokens, req.floor)
  }

  /** What the request owes for a reply: nothing with the user's own key. */
  function ChargeOf(req: Request, usage: Usage): int {
    if req.byok then 0 else CalculateCharge(ModelPrice(req.row, req.defaults), req.multiplier, usage)
  }

  function UsageOf(req: Request, up: Upstream): Usage
    requires up.Replies?
  {
    UsageFromResponse(up.usage, req.contents, up.content)
  }

  /** What is settled for an upstream's reply. */
  function SettledAmount(req: Request, up: Upstream): int {
    if up.Replies? then ChargeOf(req, UsageOf(req, up)) else 0
  }

  /** The charge of a reply in arithmetic: to the nearest cent, what its tokens cost at the row's prices, or the default
      ones, times the fee, and at least the minimum charge; nothing with the user's own key. */
  predicate IsOwed(req: Request, reply: Reply) {
    if req.byok then reply.charge == 0
    else
      var price := if req.row.None? then req.defaults
                   else req.row.value.(minCharge := if req.row.value.minCharge == 0.0 then req.defaults.minCharge
                                                    else req.row.value.minCharge);
      IsChargeOf(reply.charge, price, req.multiplier, reply.usage)
  }

  lemma UsageOwes(req: Request, content: string, usage: Usage)
    ensures IsOwed(req, Reply(content, usage, ChargeOf(req, usage), !req.byok))
  {
    hide CalculateCharge, IsChargeOf;
    ChargeIs(ModelPrice(req.row, req.defaults), req.multiplier, usage);
  }

  /** The wallet is asked for a hold. */
  predicate AsksForHold(req: Request, java: bool) {
    !req.byok && java && req.authorization != ""
  }

  /** A call goes on behind the reservation: with a granted hold, or without the wallet. */
  predicate GoesOn(req: Request, answer: HoldAnswer, java: bool) {
    req.byok || !java || (req.authorization != "" && answer.Granted?)
  }

  // ----- the shapes a run's wallet calls can take -----

  datatype Ending = Silent | NoHold | Settled | Released | SettledThenReleased | Abandoned | SettledThenAbandoned

  /** The requests behind the reservation, by how the run ended. */
  function CallsBehind(ending: Ending, req: Request, holdNo: string, charge: int, f: Faults): seq<Call> {
    var s := Settle(holdNo, charge, req.requestId, !f.settle.Failed?);
    var r := Release(holdNo, req.requestId, !f.release.Failed?);
    match ending
    case Silent => []
    case NoHold => []
    case Settled => [s]
    case Released => [r]
    case SettledThenReleased => [s, r]
    case Abandoned => []
    case SettledThenAbandoned => [s]
  }

  /** The wallet calls of one run, by how it ended. */
  function CallsOf(ending: Ending, req: Request, answer: HoldAnswer, charge: int, f: Faults): seq<Call> {
    if ending.Silent? then []
    else
      [Preauth(PreauthAmount(req), req.requestId, !answer.Refused?)] +
      CallsBehind(ending, req, if answer.Granted? then answer.holdNo else "", charge, f)
  }

  /** The fault that ends the guarded part of a call, if any: upstream, metering, settling, saving, in this order. */
  function ChatFault(up: Upstream, f: Faults, enabled: bool): Option<Fault> {
    match up
    case Raises(fault) => Some(fault)
    case NotOk => if f.upstreamLog.Some? then f.upstreamLog else Some(Http)
    case Replies(_, _) =>
      if f.meter.Some? then f.meter
      else if enabled && !f.settle.Fine? then FaultOf(f.settle)
      else f.saveSuccess
  }

  /** The run gets as far as settling. */
  predicate Settling(up: Upstream, f: Faults) {
    up.Replies? && f.meter.None?
  }

  /** How a chat run with a granted hold ends: no release is sent only if the failure log fails while an exception other
      than an HTTP one is handled. */
  function HeldEnding(up: Upstream, f: Faults): Ending {
    var fault := ChatFault(up, f, true);
    if fault.None? then Settled
    else if fault.value.Other? && f.handlerLog.Some? then
      if Settling(up, f) then SettledThenAbandoned else Abandoned
    else if Settling(up, f) then SettledThenReleased else Released
  }

  function ChatEnding(req: Request, answer: HoldAnswer, up: Upstream, f: Faults, java: bool): Ending {
    if !AsksForHold(req, java) then Silent else if !answer.Granted? then NoHold else HeldEnding(up, f)
  }

  function ChatCalls(req: Request, answer: HoldAnswer, up: Upstream, f: Faults, java: bool): seq<Call> {
    CallsOf(ChatEnding(req, answer, up, f, java), req, answer, SettledAmount(req, up), f)
  }

  /** The reservation: none with the user's own key. */
  method Reserve(wallet: WalletClient, req: Request, answer: HoldAnswer) returns (r: Result<Hold, Fault>)
    modifies wallet
    ensures wallet.calls == old(wallet.calls) +
              if AsksForHold(req, wallet.javaBackend)
              then [Preauth(PreauthAmount(req), req.requestId, !answer.Refused?)] else []
    ensures r.Ok? <==> GoesOn(req, answer, wallet.javaBackend)
    ensures r.Ok? ==> (r.value.enabled <==> AsksForHold(req, wallet.javaBackend))
    ensures r.Ok? && r.value.enabled ==> answer.Granted? && r.value.holdNo == answer.holdNo
    ensures r.Err? ==> r.error == if req.authorization == "" then Http else answer.fault
  {
    if req.byok {
      return Ok(Hold("byok-" + req.requestId, 0, false));
    }
    r := wallet.Preauthorize(req.authorization, PreauthAmount(req), req.requestId, answer);
  }

  /** The whole of POST /chat behind the risk limits. A reply to a request with a hold means exactly two wallet calls:
      the reservation, and a settlement that worked for the charge of the usage. */
  method LlmChat(wallet: WalletClient, req: Request, answer: HoldAnswer, up: Upstream, f: Faults)
    returns (r: Result<Reply, Fault>)
    modifies wallet
    ensures wallet.calls == old(wallet.calls) + ChatCalls(req, answer, up, f, wallet.javaBackend)
    ensures r.Ok? <==>
            && (req.byok || !wallet.javaBackend || (req.authorization != "" && answer.Granted?))
            && up.Replies? && f.meter.None? && (req.byok || !wallet.javaBackend || f.settle.Fine?) && f.saveSuccess.None?
    ensures r.Ok? ==> var usage := UsageOf(req, up);
                      r.value == Reply(up.content, usage, ChargeOf(req, usage), !req.byok)
    ensures r.Ok? ==>
              wallet.calls == old(wallet.calls) +
                if req.byok || !wallet.javaBackend then []
                else [Preauth(PreauthAmount(req), req.requestId, true),
                      Settle(answer.holdNo, r.value.charge, req.requestId, true)]
    ensures r.Ok? ==> IsOwed(req, r.value)
    ensures r.Err? ==> r.error == if !GoesOn(req, answer, wallet.javaBackend)
                                  then if req.authorization == "" then Http else answer.fault
                                  else ChatFault(up, f, AsksForHold(req, wallet.javaBackend)).value
  {
    if up.Replies? {
      UsageOwes(req, up.content, UsageOf(req, up));
    }
    SucceedsIff(up, f, AsksForHold(req, wallet.javaBackend));
    hide PreauthAmount, UsageOf, ChargeOf, IsOwed, ChatFault;
    var reserved := Reserve(wallet, req, answer);
    if reserved.Err? {
      return Err(reserved.error);
    }
    r := ChatWithHold(wallet, req, reserved.value, up, f);
  }

  /** The chat behind the reservation, with its exception handlers. */
  method ChatWithHold(wallet: WalletClient, req: Request, hold: Hold, up: Upstream, f: Faults)
    returns (r: Result<Reply, Fault>)
    requires hold.enabled ==> !req.byok && req.authorization != ""
    modifies wallet
    ensures wallet.calls == old(wallet.calls) +
              CallsBehind(if hold.enabled then HeldEnding(up, f) else Silent,
                          req, hold.holdNo, SettledAmount(req, up), f)
    ensures var fault := ChatFault(up, f, hold.enabled);
            if fault.Some? then r == Err(fault.value)
            else r == Ok(Reply(up.content, UsageOf(req, up), SettledAmount(req, up), !req.byok))
    ensures r.Ok? ==> up.Replies? && Settling(up, f) && (hold.enabled ==> f.settle.Fine?)
  {
    hide PreauthAmount, UsageOf, ChargeOf, SettledAmount, ChatFault;
    r := GuardedChat(wallet, req, hold, up, f);
    match r {
      case Ok(_) =>
      case Err(Http) =>
        var ignored := wallet.ReleaseHold(req.authorization, hold, req.requestId, f.release);
      case Err(Other) =>
        if f.handlerLog.None? {
          var ignored := wallet.ReleaseHold(req.authorization, hold, req.requestId, f.release);
        }
    }
  }

  /** The body of the try statement. */
  method GuardedChat(wallet: WalletClient, req: Request, hold: Hold, up: Upstream, f: Faults)
    returns (r: Result<Reply, Fault>)
    requires hold.enabled ==> !req.byok && req.authorization != ""
    modifies wallet
    ensures wallet.calls == old(wallet.calls) +
              if hold.enabled && Settling(up, f)
              then [Settle(hold.holdNo, SettledAmount(req, up), req.requestId, !f.settle.Failed?)] else []
    ensures var fault := ChatFault(up, f, hold.enabled);
            if fault.Some? then r == Err(fault.value)
            else r == Ok(Reply(up.content, UsageOf(req, up), SettledAmount(req, up), !req.byok))
    ensures r.Ok? ==> up.Replies? && Settling(up, f) && (hold.enabled ==> f.settle.Fine?)
  {
    match up
    case Raises(fault) =>
      return Err(fault);
    case NotOk =>
      if f.upstreamLog.Some? {
        return Err(f.upstreamLog.value);
      }
      return Err(Http);
    case Replies(content, raw) =>
      if f.meter.Some? {
        return Err(f.meter.value);
      }
      var usage := UsageFromResponse(raw, req.contents, content);
      var charge := 0;
      if !req.byok {
        charge := CalculateCharge(ModelPrice(req.row, req.defaults), req.multiplier, usage);
        var failed := wallet.SettleHold(req.authorization, hold, charge, req.requestId, f.settle);
        if failed.Some? {
          return Err(failed.value);
        }
      }
      if f.saveSuccess.Some? {
        return Err(f.saveSuccess.value);
      }
      return Ok(Reply(content, usage, charge, !req.byok));
  }

  // ----- the same around a stream -----

  datatype StreamEvent =
    Delta(text: string) | UsageReport(usage: RawUsage) | ErrorEvent | OtherEvent | Breaks(fault: Fault)

  datatype Sse = MetaSent | DeltaSent(text: string) | DoneSent(reply: Reply) | ErrorSent

  /** The stream up to its first error or exception. */
  function Usable(events: seq<StreamEvent>): (n: nat)
    ensures n <= |events|
    ensures n < |events| ==> events[n].ErrorEvent? || events[n].Breaks?
    ensures forall i :: 0 <= i < n ==> !events[i].ErrorEvent? && !events[i].Breaks?
  {
    if |events| == 0 || events[0].ErrorEvent? || events[0].Breaks? then 0 else 1 + Usable(events[1..])
  }

  function Content(events: seq<StreamEvent>): string {
    if |events| == 0 then []
    else
      var e := events[|events| - 1];
      Content(events[..|events| - 1]) + if e.Delta? then e.text else []
  }

  function LastUsage(events: seq<StreamEvent>): RawUsage {
    if |events| == 0 then RawUsage([], [], [])
    else if events[|events| - 1].UsageReport? then events[|events| - 1].usage
    else LastUsage(events[..|events| - 1])
  }

  /** The text chunks sent on, without the empty ones. */
  function DeltasSent(events: seq<StreamEvent>): seq<Sse> {
    if |events| == 0 then []
    else
      var e := events[|events| - 1];
      DeltasSent(events[..|events| - 1]) + if e.Delta? && e.text != [] then [DeltaSent(e.text)] else []
  }

  /** A stream seen as an upstream: what it replied if it ran to its end, how it failed otherwise. */
  function AsUpstream(events: seq<StreamEvent>): Upstream {
    var n := Usable(events);
    if n == |events| then Replies(Content(events), LastUsage(events))
    else if events[n].ErrorEvent? then NotOk
    else Raises(events[n].fault)
  }

  /** How a streamed run with a hold ends. An error event that can be logged is released on the spot; behind every
      exception, HTTP or not, the failure log comes first and costs the release if it fails. */
  function HeldStreamEnding(up: Upstream, f: Faults): Ending {
    if up.NotOk? && f.upstreamLog.None? then Released
    else if ChatFault(up, f, true).None? then Settled
    else if f.handlerLog.Some? then if Settling(up, f) then SettledThenAbandoned else Abandoned
    else if Settling(up, f) then SettledThenReleased else Released
  }

  function StreamEnding(req: Request, answer: HoldAnswer, up: Upstream, f: Faults, java: bool): Ending {
    if !AsksForHold(req, java) then Silent else if !answer.Granted? then NoHold else HeldStreamEnding(up, f)
  }

  function StreamCalls(req: Request, answer: HoldAnswer, up: Upstream, f: Faults, java: bool): seq<Call> {
    CallsOf(StreamEnding(req, answer, up, f, java), req, answer, SettledAmount(req, up), f)
  }

  /** What the client receives from a stream that got started. */
  function EventsSent(req: Request, events: seq<StreamEvent>, f: Faults, enabled: bool): seq<Sse> {
    var up := AsUpstream(events);
    [MetaSent] + DeltasSent(events[..Usable(events)]) +
    [if ChatFault(up, f, enabled).None?
     then DoneSent(Reply(Content(events), UsageOf(req, up), SettledAmount(req, up), !req.byok)) else ErrorSent]
  }

  /** The whole of POST /chat/stream behind the risk limits, driven to its end. */
  method LlmChatStream(wallet: WalletClient, req: Request, answer: HoldAnswer, events: seq<StreamEvent>, f: Faults)
    returns (r: Result<seq<Sse>, Fault>)
    modifies wallet
    ensures wallet.calls == old(wallet.calls) + StreamCalls(req, answer, AsUpstream(events), f, wallet.javaBackend)
    ensures r.Ok? <==> req.byok || !wallet.javaBackend || (req.authorization != "" && answer.Granted?)
    ensures r.Ok? ==> r.value == EventsSent(req, events, f, AsksForHold(req, wallet.javaBackend))
  {
    var reserved := Reserve(wallet, req, answer);
    if reserved.Err? {
      return Err(reserved.error);
    }
    var sent := StreamGen(wallet, req, reserved.value, events, f);
    return Ok(sent);
  }

  /** The generator behind the stream; the hold was made before it started. */
  method StreamGen(wallet: WalletClient, req: Request, hold: Hold, events: seq<StreamEvent>, f: Faults)
    returns (sent: seq<Sse>)
    requires hold.enabled ==> !req.byok && req.authorization != ""
    modifies wallet
    ensures var up := AsUpstream(events);
            wallet.calls == old(wallet.calls) +
              CallsBehind(if hold.enabled then HeldStreamEnding(up, f) else Silent,
                          req, hold.holdNo, SettledAmount(req, up), f)
    ensures sent == EventsSent(req, events, f, hold.enabled)
  {
    var i, parts, upstreamUsage;
    i, parts, upstreamUsage, sent := ConsumeStream(events);
    if i < |events| && events[i].ErrorEvent? && f.upstreamLog.None? {
      var ignored := wallet.ReleaseHold(req.authorization, hold, req.requestId, f.release);
      sent := sent + [ErrorSent];
      return;
    }
    if i < |events| {
      sent := HandleStreamFault(wallet, req, hold, f, sent);
      return;
    }
    assert events[..i] == events;
    var r := GuardedChat(wallet, req, hold, Replies(parts, upstreamUsage), f);
    match r {
      case Ok(reply) => sent := sent + [DoneSent(reply)];
      case Err(_) => sent := HandleStreamFault(wallet, req, hold, f, sent);
    }
  }

  /** The loop over the upstream's events, up to its end, its error event or its exception. */
  method ConsumeStream(events: seq<StreamEvent>) returns (i: nat, parts: string, usage: RawUsage, sent: seq<Sse>)
    ensures i == Usable(events)
    ensures parts == Content(events[..i]) && usage == LastUsage(events[..i])
    ensures sent == [MetaSent] + DeltasSent(events[..i])
  {
    i, parts, usage, sent := 0, [], RawUsage([], [], []), [MetaSent];
    while i < |events| && !events[i].Breaks? && !events[i].ErrorEvent?
      invariant 0 <= i <= |events|
      invariant Usable(events) == i + Usable(events[i..])
      invariant parts == Content(events[..i]) && usage == LastUsage(events[..i])
      invariant sent == [MetaSent] + DeltasSent(events[..i])
      decreases |events| - i
    {
      var ev := events[i];
      assert events[i..][1..] == events[i + 1..];
      assert events[..i + 1][..i] == events[..i];
      match ev {
        case UsageReport(reported) => usage := reported;
        case Delta(text) =>
          if text != [] {
            parts := parts + text;
            sent := sent + [DeltaSent(text)];
          }
        case _ =>
      }
      i := i + 1;
    }
  }

  /** The handler around the generator: log, then release, both inside one guard, then tell the client. */
  method HandleStreamFault(wallet: WalletClient, req: Request, hold: Hold, f: Faults, sent: seq<Sse>)
    returns (all: seq<Sse>)
    requires hold.enabled ==> req.authorization != ""
    modifies wallet
    ensures wallet.calls == old(wallet.calls) +
              if hold.enabled && f.handlerLog.None?
              then [Release(hold.holdNo, req.requestId, !f.release.Failed?)] else []
    ensures all == sent + [ErrorSent]
  {
    if f.handlerLog.None? {
      var ignored := wallet.ReleaseHold(req.authorization, hold, req.requestId, f.release);
    }
    all := sent + [ErrorSent];
  }

  // ----- what the shapes mean -----

  /** A run reserves first, settles at most once and for the charge, releases at most once, and does nothing after
      that. */
  lemma CallsAreOrdered(ending: Ending, req: Request, answer: HoldAnswer, charge: int, f: Faults, i: nat, j: nat)
    requires i < j < |CallsOf(ending, req, answer, charge, f)|
    ensures var calls := CallsOf(ending, req, answer, charge, f);
            && calls[0] == Preauth(PreauthAmount(req), req.requestId, !answer.Refused?)
            && !calls[j].Preauth? && !calls[i].Release?
            && (calls[i].Settle? ==> calls[j].Release?)
            && (calls[j].Settle? ==> calls[j].amount == charge)
            && (answer.Granted? && !calls[j].Preauth? ==>
                  calls[j].holdNo == answer.holdNo && calls[j].requestId == req.requestId)
  {
  }

  /** The guarded part succeeds exactly if the upstream replies, and metering, settling and saving work. */
  lemma SucceedsIff(up: Upstream, f: Faults, enabled: bool)
    ensures ChatFault(up, f, enabled).None? <==>
            up.Replies? && f.meter.None? && (enabled ==> f.settle.Fine?) && f.saveSuccess.None?
  {
  }

  /** The texts of the chunks sent, put together. */
  function Joined(sent: seq<Sse>): string {
    if |sent| == 0 then []
    else
      var e := sent[|sent| - 1];
      Joined(sent[..|sent| - 1]) + if e.DeltaSent? then e.text else []
  }

  lemma JoinedSnoc(sent: seq<Sse>, text: string)
    ensures Joined(sent + [DeltaSent(text)]) == Joined(sent) + text
  {
    assert (sent + [DeltaSent(text)])[..|sent|] == sent;
  }

  /** The usage a stream ends with is the last one reported; without a report it is empty. */
  lemma {:induction false} LastUsageIs(events: seq<StreamEvent>, i: nat)
    requires i < |events| && events[i].UsageReport?
    requires forall k :: i < k < |events| ==> !events[k].UsageReport?
    ensures LastUsage(events) == events[i].usage
    decreases |events|
  {
    if i < |events| - 1 {
      LastUsageIs(events[..|events| - 1], i);
    }
  }

  lemma {:induction false} DeltasJoin(events: seq<StreamEvent>)
    ensures Joined(DeltasSent(events)) == Content(events)
    ensures forall e :: e in DeltasSent(events) ==> e.DeltaSent? && e.text != []
  {
    if |events| > 0 {
      var before, e := events[..|events| - 1], events[|events| - 1];
      var front := DeltasSent(before);
      DeltasJoin(before);
      if e.Delta? && e.text != [] {
        JoinedSnoc(front, e.text);
        assert DeltasSent(events) == front + [DeltaSent(e.text)];
      } else {
        assert DeltasSent(events) == front + [] == front;
        assert Content(events) == Content(before) + [] == Content(before);
      }
    }
  }

  /** Every chunk with text is sent on as it came, in its place; nothing else is. */
  lemma {:induction false} DeltasInOrder(events: seq<StreamEvent>, more: seq<StreamEvent>)
    ensures DeltasSent(events + more) == DeltasSent(events) + DeltasSent(more)
  {
    if |more| == 0 {
      assert events + more == events;
    } else {
      var front := more[..|more| - 1];
      DeltasInOrder(events, front);
      assert (events + more)[..|events + more| - 1] == events + front;
    }
  }

  lemma OneDelta(e: StreamEvent)
    ensures DeltasSent([e]) == if e.Delta? && e.text != [] then [DeltaSent(e.text)] else []
  {
    assert [e][..0] == [];
  }

  /** What a stream sends: one opening event, nonempty chunks, and one closing event. The chunks put together are the
      text up to the upstream's end or first failure. The closing event is a reply exactly if nothing failed; then it
      repeats that text, and its charge is what its usage costs. */
  lemma StreamMeans(req: Request, events: seq<StreamEvent>, f: Faults, enabled: bool)
    ensures var sent := EventsSent(req, events, f, enabled);
            var n := Usable(events);
            && |sent| >= 2 && sent[0] == MetaSent
            && (forall k :: 1 <= k < |sent| - 1 ==> sent[k].DeltaSent? && sent[k].text != [])
            && Joined(sent[1..|sent| - 1]) == Content(events[..n])
            && var last := sent[|sent| - 1];
               && (last.DoneSent? || last.ErrorSent?)
               && (last.DoneSent? <==> n == |events| && f.meter.None? && (enabled ==> f.settle.Fine?) &&
                                       f.saveSuccess.None?)
               && (last.DoneSent? ==> last.reply.content == Joined(sent[1..|sent| - 1]) && IsOwed(req, last.reply))
  {
    hide IsOwed, ChargeOf, UsageFromResponse, Content, LastUsage;
    var n := Usable(events);
    var deltas := DeltasSent(events[..n]);
    DeltasJoin(events[..n]);
    var sent := EventsSent(req, events, f, enabled);
    assert sent[1..|sent| - 1] == deltas;
    SucceedsIff(AsUpstream(events), f, enabled);
    if n == |events| {
      assert events[..n] == events;
      UsageOwes(req, Content(events), UsageOf(req, AsUpstream(events)));
    }
  }

  /** The hold is large enough for every reply within the estimate it was made from. */
  lemma HoldCoversCharge(req: Request, usage: Usage)
    requires !req.byok && Sensible(ModelPrice(req.row, req.defaults), req.multiplier)
    requires WithinEstimate(usage, req.contents, req.maxTokens, req.defaultTokens)
    ensures ChargeOf(req, usage) <= PreauthAmount(req)
  {
    PreauthCoversCharge(ModelPrice(req.row, req.defaults), req.multiplier, req.contents, req.maxTokens,
                        req.defaultTokens, req.floor, usage);
  }

  predicate Closes(c: Call) {
    (c.Settle? || c.Release?) && c.done
  }

  /** A hold was made, and no settlement and no release of the run has taken effect. */
  ghost predicate LeftOpen(calls: seq<Call>) {
    && |calls| > 0 && calls[0].Preauth? && calls[0].held
    && forall i :: 0 < i < |calls| ==> !Closes(calls[i])
  }

  /** The charge is settled, whatever goes wrong afterwards and whatever is reported. */
  predicate Settles(up: Upstream, f: Faults) {
    Settling(up, f) && !f.settle.Failed?
  }

  lemma OpenBehind(ending: Ending, req: Request, answer: HoldAnswer, charge: int, f: Faults)
    ensures LeftOpen(CallsOf(ending, req, answer, charge, f)) <==>
            && !ending.Silent? && !answer.Refused?
            && match ending
               case Settled => f.settle.Failed?
               case Released => f.release.Failed?
               case SettledThenReleased => f.settle.Failed? && f.release.Failed?
               case SettledThenAbandoned => f.settle.Failed?
               case _ => true
  {
    var calls := CallsOf(ending, req, answer, charge, f);
    assert |calls| > 1 ==> Closes(calls[1]) == if calls[1].Settle? then !f.settle.Failed? else !f.release.Failed?;
    assert |calls| > 2 ==> Closes(calls[2]) == !f.release.Failed?;
  }

  /** A chat run leaves a hold open exactly if the wallet made one whose grant was lost, or the run fails before a
      settlement takes effect, and then the release has no effect either, or is not even sent because the failure log
      fails on an exception other than an HTTP one. */
  lemma ChatLeavesOpenIff(req: Request, answer: HoldAnswer, up: Upstream, f: Faults, java: bool)
    ensures LeftOpen(ChatCalls(req, answer, up, f, java)) <==>
            && !req.byok && java && req.authorization != ""
            && (|| answer.GrantLost?
                || (&& answer.Granted? && !Settles(up, f)
                    && (f.release.Failed? || (ChatFault(up, f, true) == Some(Other) && f.handlerLog.Some?))))
  {
    OpenBehind(ChatEnding(req, answer, up, f, java), req, answer, SettledAmount(req, up), f);
  }

  /** A streamed run leaves a hold open exactly if the wallet made one whose grant was lost, or the run fails before a
      settlement takes effect, and then the release has no effect either, or is not even sent because the failure log
      fails, on whatever exception. */
  lemma StreamLeavesOpenIff(req: Request, answer: HoldAnswer, up: Upstream, f: Faults, java: bool)
    ensures LeftOpen(StreamCalls(req, answer, up, f, java)) <==>
            && !req.byok && java && req.authorization != ""
            && (|| answer.GrantLost?
                || (&& answer.Granted? && !Settles(up, f)
                    && (f.release.Failed? || (f.handlerLog.Some? && !(up.NotOk? && f.upstreamLog.None?)))))
  {
    OpenBehind(StreamEnding(req, answer, up, f, java), req, answer, SettledAmount(req, up), f);
  }

  const NO_FAULT := Faults(None, Fine, None, None, None, Fine)

  /** The ways to leave a hold open: a grant that is lost; a release that fails, behind any failed call; a failing log,
      behind a call that raises something other than an HTTP exception, and behind an HTTP one if the call is
      streamed. */
  lemma WaysToLeaveOpen(req: Request, holdNo: string, amount: int, fault: Fault, up: Upstream, f: Faults)
    requires !req.byok && req.authorization != ""
    ensures LeftOpen(ChatCalls(req, GrantLost(fault), up, f, true))
    ensures LeftOpen(StreamCalls(req, GrantLost(fault), up, f, true))
    ensures var held, raised, noRelease := Granted(holdNo, amount), Raises(fault), NO_FAULT.(release := Failed(fault));
            && LeftOpen(ChatCalls(req, held, raised, noRelease, true))
            && LeftOpen(StreamCalls(req, held, raised, noRelease, true))
    ensures var held, raised, noLog := Granted(holdNo, amount), Raises(fault), NO_FAULT.(handlerLog := Some(fault));
            && (LeftOpen(ChatCalls(req, held, raised, noLog, true)) <==> fault.Other?)
            && LeftOpen(StreamCalls(req, held, raised, noLog, true))
  {
    hide LeftOpen, ChatCalls, StreamCalls;
    var held, raised := Granted(holdNo, amount), Raises(fault);
    var noRelease, noLog := NO_FAULT.(release := Failed(fault)), NO_FAULT.(handlerLog := Some(fault));
    ChatLeavesOpenIff(req, GrantLost(fault), up, f, true);
    StreamLeavesOpenIff(req, GrantLost(fault), up, f, true);
    ChatLeavesOpenIff(req, held, raised, noRelease, true);
    ChatLeavesOpenIff(req, held, raised, noLog, true);
    StreamLeavesOpenIff(req, held, raised, noRelease, true);
    StreamLeavesOpenIff(req, held, raised, noLog, true);
  }

  /** A settlement that is done but reported as failed is followed by a release request, and the reply is lost with it;
      nothing stays open. */
  lemma LostSettlement(req: Request, answer: HoldAnswer, content: string, usage: RawUsage, fault: Fault)
    requires !req.byok && req.authorization != "" && answer.Granted?
    ensures var up, lost := Replies(content, usage), NO_FAULT.(settle := Lost(fault));
            && ChatFault(up, lost, true).Some? && ChatEnding(req, answer, up, lost, true).SettledThenReleased?
            && !LeftOpen(ChatCalls(req, answer, up, lost, true))
  {
    ChatLeavesOpenIff(req, answer, Replies(content, usage), NO_FAULT.(settle := Lost(fault)), true);
  }

  /** With a failure log that does not fail, a run with a hold that does not settle and reply ends in a release request,
      and if that one takes effect, no hold stays open. */
  lemma FailedRunsRelease(req: Request, answer: HoldAnswer, up: Upstream, f: Faults, java: bool)
    requires !req.byok && java && req.authorization != "" && answer.Granted? && f.handlerLog.None?
    ensures ChatEnding(req, answer, up, f, java) in {Settled, Released, SettledThenReleased}
    ensures StreamEnding(req, answer, up, f, java) in {Settled, Released, SettledThenReleased}
    ensures ChatEnding(req, answer, up, f, java).Settled? <==> ChatFault(up, f, true).None?
    ensures StreamEnding(req, answer, up, f, java).Settled? <==> ChatFault(up, f, true).None?
    ensures !f.release.Failed? ==>
              !LeftOpen(ChatCalls(req, answer, up, f, java)) && !LeftOpen(StreamCalls(req, answer, up, f, java))
  {
    ChatLeavesOpenIff(req, answer, up, f, java);
    StreamLeavesOpenIff(req, answer, up, f, java);
  }
}
