/** The orders screen: which status changes each row offers, the chip's colour
    and label, and what a status update and a list fetch leave behind. */
module OrdersScreen {
  import opened Common
  import opened Http

  /** The four statuses the screen knows; the server sends them as text. */
  datatype Status = Pending | InProgress | Completed | Cancelled

  /** An order as listed; `status` is the server's text, unchecked. */
  datatype Order = Order(id: string, customerName: string, serviceName: string,
                         status: string, amount: real, createdAt: string)

  datatype Screen = Screen(orders: seq<Order>, loading: bool)

  /** A row button: its caption and the status it requests. */
  datatype Action = Action(caption: string, target: Status)

  datatype Color = Warning | Info | Success | Error | Default

  /** A status update: the PATCH it sends, the toast shown, and the refetches
      it starts. */
  datatype Updated = Updated(request: Request<string>, toast: Toast, refetches: seq<Request<string>>)

  const OrdersUrl: string := ApiBase + "/vendor/orders"

  function StatusName(s: Status): string {
    match s
    case Pending => "pending"
    case InProgress => "in_progress"
    case Completed => "completed"
    case Cancelled => "cancelled"
  }

  function ParseStatus(text: string): (r: Option<Status>)
    ensures r.Some? ==> StatusName(r.value) == text
  {
    if text == "pending" then Some(Pending)
    else if text == "in_progress" then Some(InProgress)
    else if text == "completed" then Some(Completed)
    else if text == "cancelled" then Some(Cancelled)
    else None
  }

  lemma ParseStatusName(s: Status)
    ensures ParseStatus(StatusName(s)) == Some(s)
  {
  }

  function Initial(): Screen {
    Screen([], true)
  }

  /** The buttons a row shows for its status text. */
  function Actions(status: string): (r: seq<Action>)
    ensures |r| <= 1
    ensures forall a :: a in r ==> ParseStatus(status).Some? && a.target != Cancelled
  {
    (if status == "pending" then [Action("Start", InProgress)] else [])
    + (if status == "in_progress" then [Action("Complete", Completed)] else [])
  }

  /** Exactly one forward step from `pending` and from `in_progress`, and
      nothing from `completed`, `cancelled` or any text the screen does not
      know. */
  lemma ActionsPerStatus(text: string)
    ensures Actions("pending") == [Action("Start", InProgress)]
    ensures Actions("in_progress") == [Action("Complete", Completed)]
    ensures Actions(text) != [] <==> text == "pending" || text == "in_progress"
    ensures |Actions(text)| <= 1
  {
  }

  /** How far along the normal path a status is; `cancelled` is off it. */
  function Rank(s: Status): (r: int)
    ensures -1 <= r <= 2
  {
    match s
    case Pending => 0
    case InProgress => 1
    case Completed => 2
    case Cancelled => -1
  }

  /** Every offered button moves one step forward along the normal path, so
      no button ever leads to `cancelled` or back. */
  lemma ActionsMoveForward(s: Status)
    ensures forall a :: a in Actions(StatusName(s)) ==> Rank(a.target) == Rank(s) + 1 && a.target != Cancelled
  {
  }

  /** The statuses one button press can lead to. */
  function Next(s: Status): set<Status> {
    set a | a in Actions(StatusName(s)) :: a.target
  }

  /** A sequence of statuses an order can pass through by pressing buttons. */
  predicate IsPath(p: seq<Status>) {
    forall i :: 0 <= i < |p| - 1 ==> p[i + 1] in Next(p[i])
  }

  /** Along any path each press moves exactly one step forward and never to
      `cancelled`; so no path leaves `completed` or `cancelled`, and a path
      from `pending` ends at `completed` after at most two presses. */
  lemma {:induction false} PathsMoveForward(p: seq<Status>)
    requires |p| >= 1 && IsPath(p)
    ensures forall i :: 0 < i < |p| ==> Rank(p[i]) == Rank(p[0]) + i && p[i] != Cancelled
    ensures p[0] == Completed || p[0] == Cancelled ==> |p| == 1
    ensures |p| <= 3
    decreases |p|
  {
    if |p| >= 2 {
      ActionsMoveForward(p[0]);
      assert p[1] in Next(p[0]);
      assert p[0] != Completed && p[0] != Cancelled by {
        assert Actions(StatusName(Completed)) == [] && Actions(StatusName(Cancelled)) == [];
        assert Next(Completed) == {} && Next(Cancelled) == {};
      }
      assert Rank(p[1]) == Rank(p[0]) + 1 && p[1] != Cancelled && Rank(p[1]) >= 1;
      var q := p[1..];
      assert IsPath(q) by {
        forall i | 0 <= i < |q| - 1
          ensures q[i + 1] in Next(q[i])
        {
          assert q[i] == p[i + 1] && q[i + 1] == p[i + 2];
        }
      }
      PathsMoveForward(q);
      if |q| >= 2 {
        assert Rank(q[|q| - 1]) == Rank(q[0]) + (|q| - 1);
      }
      forall i | 0 < i < |p|
        ensures Rank(p[i]) == Rank(p[0]) + i && p[i] != Cancelled
      {
        if i > 1 {
          assert p[i] == q[i - 1];
        }
      }
    }
  }

  function StatusColor(status: string): (c: Color)
    ensures c == Default <==> ParseStatus(status).None?
  {
    if status == "pending" then Warning
    else if status == "in_progress" then Info
    else if status == "completed" then Success
    else if status == "cancelled" then Error
    else Default
  }

  /** The four known statuses get four different colours, and only text the
      screen does not know falls back to the default one. */
  lemma StatusColorDistinguishes(s: Status, t: Status, text: string)
    ensures StatusColor(StatusName(s)) == StatusColor(StatusName(t)) ==> s == t
    ensures StatusColor(text) == Default <==> ParseStatus(text) == None
    ensures StatusColor("pending") == Warning && StatusColor("in_progress") == Info
    ensures StatusColor("completed") == Success && StatusColor("cancelled") == Error
  {
  }

  function IndexOf(s: string, c: char): (i: nat)
    ensures i <= |s|
    ensures i < |s| ==> s[i] == c
    ensures forall j :: 0 <= j < i ==> s[j] != c
  {
    if s == [] then 0
    else if s[0] == c then 0
    else 1 + IndexOf(s[1..], c)
  }

  /** `String.prototype.replace` with a one-character pattern: only the first
      occurrence is replaced. */
  function ReplaceFirst(s: string, from: char, to: char): string {
    if s == [] then []
    else if s[0] == from then [to] + s[1..]
    else [s[0]] + ReplaceFirst(s[1..], from, to)
  }

  /** The chip's label. */
  function StatusLabel(status: string): string {
    ReplaceFirst(status, '_', ' ')
  }

  /** Only the first occurrence of `from` is replaced, by `to`; the rest of
      the text, later occurrences included, is kept. */
  lemma {:induction false} ReplaceFirstChangesOnlyFirst(s: string, from: char, to: char)
    ensures |ReplaceFirst(s, from, to)| == |s|
    ensures from !in s ==> ReplaceFirst(s, from, to) == s
    ensures from in s ==> ReplaceFirst(s, from, to) == s[..IndexOf(s, from)] + [to] + s[IndexOf(s, from) + 1..]
  {
    if s != [] && s[0] != from {
      ReplaceFirstChangesOnlyFirst(s[1..], from, to);
      if from in s {
        assert from in s[1..];
        var i := IndexOf(s[1..], from);
        assert s[..i + 1] == [s[0]] + s[1..][..i];
        assert s[i + 2..] == s[1..][i + 1..];
      } else {
        assert s == [s[0]] + s[1..];
      }
    }
  }

  /** The label differs from the status only at its first underscore, which
      becomes a space. */
  lemma StatusLabelChangesFirstUnderscore(status: string)
    ensures |StatusLabel(status)| == |status|
    ensures forall j :: 0 <= j < |status| && j != IndexOf(status, '_') ==> StatusLabel(status)[j] == status[j]
    ensures '_' in status ==> StatusLabel(status)[IndexOf(status, '_')] == ' '
  {
    ReplaceFirstChangesOnlyFirst(status, '_', ' ');
  }

  lemma StatusLabelExamples()
    ensures StatusLabel("in_progress") == "in progress"
    ensures StatusLabel("a_b_c") == "a b_c"
  {
    assert "_progress"[0] == '_' && "_progress"[1..] == "progress";
    assert "n_progress"[0] == 'n' && "n_progress"[1..] == "_progress";
    assert "in_progress"[0] == 'i' && "in_progress"[1..] == "n_progress";
    assert "_b_c"[0] == '_' && "_b_c"[1..] == "b_c";
    assert "a_b_c"[0] == 'a' && "a_b_c"[1..] == "_b_c";

  }

  /** `fetchOrders` settling: the list is replaced on success, kept on any
      failure, and loading ends either way. */
  function FetchOrders(s: Screen, answer: Option<seq<Order>>): (r: Screen)
    ensures !r.loading
    ensures r.orders == (if answer.Some? then answer.value else s.orders)
  {
    match answer
    case Some(list) => Screen(list, false)
    case None => s.(loading := false)
  }

  /** The list answers applied in the order they settle. */
  function FetchAll(s: Screen, answers: seq<Option<seq<Order>>>): Screen
    decreases |answers|
  {
    if answers == [] then s else FetchAll(FetchOrders(s, answers[0]), answers[1..])
  }

  /** The list the last successful answer carried, or `shown` if none did. */
  function LastList(shown: seq<Order>, answers: seq<Option<seq<Order>>>): seq<Order>
    decreases |answers|
  {
    if answers == [] then shown
    else match answers[|answers| - 1]
      case Some(list) => list
      case None => LastList(shown, answers[..|answers| - 1])
  }

  lemma {:induction false} LastListAfterFirst(shown: seq<Order>, a: Option<seq<Order>>, rest: seq<Option<seq<Order>>>)
    ensures LastList(shown, [a] + rest) == LastList(if a.Some? then a.value else shown, rest)
    decreases |rest|
  {
    if rest != [] {
      var all := [a] + rest;
      assert all[|all| - 1] == rest[|rest| - 1];
      assert all[..|all| - 1] == [a] + rest[..|rest| - 1];
      LastListAfterFirst(shown, a, rest[..|rest| - 1]);
    } else {
      assert [a] + rest == [a];
      assert ([a] + rest)[..0] == [];
    }
  }

  /** However the refetches settle, the screen shows the list of the last one
      that succeeded, or what it showed before if none did; loading ends with
      the first settled answer. */
  lemma {:induction false} LastSuccessfulFetchWins(s: Screen, answers: seq<Option<seq<Order>>>)
    ensures FetchAll(s, answers).orders == LastList(s.orders, answers)
    ensures answers != [] ==> !FetchAll(s, answers).loading
    decreases |answers|
  {
    if answers != [] {
      var next := FetchOrders(s, answers[0]);
      LastSuccessfulFetchWins(next, answers[1..]);
      assert [answers[0]] + answers[1..] == answers;
      LastListAfterFirst(s.orders, answers[0], answers[1..]);
    }
  }

  /** The screen starts empty and loading, and stays empty while every fetch
      fails. */
  lemma FailedFetchesShowNothing(answers: seq<Option<seq<Order>>>)
    requires forall i :: 0 <= i < |answers| ==> answers[i].None?
    ensures Initial().loading && Initial().orders == []
    ensures FetchAll(Initial(), answers).orders == []
  {
    LastSuccessfulFetchWins(Initial(), answers);
    NoSuccessKeepsShown([], answers);
  }

  lemma {:induction false} NoSuccessKeepsShown(shown: seq<Order>, answers: seq<Option<seq<Order>>>)
    requires forall i :: 0 <= i < |answers| ==> answers[i].None?
    ensures LastList(shown, answers) == shown
    decreases |answers|
  {
    if answers != [] {
      var front := answers[..|answers| - 1];
      assert forall i :: 0 <= i < |front| ==> front[i] == answers[i];
      NoSuccessKeepsShown(shown, front);
    }
  }

  function FetchRequest(store: Store): Request<string> {
    Request(GET, OrdersUrl, RawBearer(store), "")
  }

  /** `handleStatusUpdate`: one PATCH carrying the new status; a success starts
      exactly one refetch, a failure none. */
  function HandleStatusUpdate(store: Store, orderId: string, newStatus: Status, ok: bool): (r: Updated)
    ensures r.request.verb == PATCH && r.request.url == OrdersUrl + "/" + orderId + "/status"
    ensures r.request.body == "{\"status\":\"" + StatusName(newStatus) + "\"}"
    ensures |r.refetches| == (if ok then 1 else 0)
    ensures forall q :: q in r.refetches ==> q == FetchRequest(store)
    ensures r.request.authorization == RawBearer(store)
    ensures ok ==> r.toast == ToastSuccess("Order status updated successfully")
    ensures !ok ==> r.toast == ToastError("Failed to update order status")
  {
    var patch := Request(PATCH, OrdersUrl + "/" + orderId + "/status", RawBearer(store),
                         "{\"status\":\"" + StatusName(newStatus) + "\"}");
    if ok then Updated(patch, ToastSuccess("Order status updated successfully"), [FetchRequest(store)])
    else Updated(patch, ToastError("Failed to update order status"), [])
  }

  /** Pressing a row's button asks the server for the next status on the
      normal path, for that row's order and no other, and the status text sent
      is one the screen reads back as that status. */
  lemma ButtonRequestsNextStatus(store: Store, o: Order, a: Action, ok: bool)
    requires a in Actions(o.status)
    ensures ParseStatus(o.status).Some?
    ensures a.target in Next(ParseStatus(o.status).value)
    ensures Rank(a.target) == Rank(ParseStatus(o.status).value) + 1
    ensures var u := HandleStatusUpdate(store, o.id, a.target, ok);
            && u.request.url == OrdersUrl + "/" + o.id + "/status"
            && u.request.body == "{\"status\":\"" + StatusName(a.target) + "\"}"
            && ParseStatus(StatusName(a.target)) == Some(a.target)
  {
    var s := ParseStatus(o.status).value;
    assert StatusName(s) == o.status;
    ActionsMoveForward(s);
  }
}
