/** The services screen: the list, the dialog's open/editing state, the save
    target (update or create), deletion behind a confirmation, and a full
    list refetch after every successful change. */
module ServicesScreen {
  import opened Common
  import opened Http
  import ServiceForm

  /** A service as listed; only the identifier drives behaviour here. */
  datatype Service = Service(id: string, name: string)

  datatype Body = NoBody | Multipart(parts: seq<ServiceForm.Part>)

  /** `dialog` is the add-service dialog's own state: the dialog stays mounted,
      so that state lives as long as the screen does. */
  datatype Screen = Screen(
    services: seq<Service>,
    loading: bool,
    open: bool,
    editing: Option<Service>,
    dialog: ServiceForm.Dialog)

  /** A save as seen by the parent: the screen afterwards, the requests issued
      in order, and whether the failure was rethrown to the dialog. */
  datatype Saved = Saved(screen: Screen, requests: seq<Request<Body>>, thrown: bool)

  /** A dialog submit followed through the parent: the screen afterwards and
      every request issued, in order. */
  datatype Flow = Flow(screen: Screen, requests: seq<Request<Body>>)

  const ServicesUrl: string := ApiBase + "/services"

  function Initial(): Screen {
    Screen([], true, false, None, ServiceForm.InitialDialog())
  }

  function ServiceUrl(id: string): string {
    ServicesUrl + "/" + id
  }

  function FetchRequest(store: Store): Request<Body> {
    Request(GET, ServicesUrl, RawBearer(store), NoBody)
  }

  /** `fetchServices` settling: the list is replaced on success, kept on
      failure, and loading ends either way. */
  function FetchServices(s: Screen, answer: Option<seq<Service>>): (r: Screen)
    ensures !r.loading
    ensures r.services == (if answer.Some? then answer.value else s.services)
    ensures r.open == s.open && r.editing == s.editing && r.dialog == s.dialog
  {
    match answer
    case Some(list) => s.(services := list, loading := false)
    case None => s.(loading := false)
  }

  /** Opening for a given service remembers it; opening without one forgets
      any earlier one. The dialog's own state is not touched. */
  function OpenDialog(s: Screen, svc: Option<Service>): (r: Screen)
    ensures r.open && r.editing == svc
    ensures r.services == s.services && r.loading == s.loading && r.dialog == s.dialog
  {
    s.(open := true, editing := if svc.Some? then svc else None)
  }

  function CloseDialog(s: Screen): (r: Screen)
    ensures !r.open && r.editing == None
    ensures r.services == s.services && r.loading == s.loading && r.dialog == s.dialog
  {
    s.(open := false, editing := None)
  }

  /** Where a save goes: `PUT /services/{id}` while editing, `POST /services`
      otherwise. */
  function SaveRequest(store: Store, editing: Option<Service>, payload: seq<ServiceForm.Part>): (q: Request<Body>)
    ensures q.body == Multipart(payload) && q.authorization == RawBearer(store)
    ensures editing.Some? <==> q.verb == PUT
    ensures editing.None? <==> q.verb == POST
    ensures editing.Some? ==> q.url == ServicesUrl + "/" + editing.value.id
    ensures editing.None? ==> q.url == ServicesUrl
  {
    match editing
    case Some(svc) => Request(PUT, ServiceUrl(svc.id), RawBearer(store), Multipart(payload))
    case None => Request(POST, ServicesUrl, RawBearer(store), Multipart(payload))
  }

  /** The parent's `handleSubmit`: a successful save closes the dialog and then
      refetches; a failed one is rethrown with no close and no refetch. */
  function HandleSubmit(s: Screen, store: Store, payload: seq<ServiceForm.Part>, ok: bool): (r: Saved)
    ensures |r.requests| == (if ok then 2 else 1)
    ensures r.requests[0] == SaveRequest(store, s.editing, payload)
    ensures ok ==> r.requests[1] == FetchRequest(store) && !r.thrown
    ensures ok ==> r.screen == s.(open := false, editing := None)
    ensures !ok ==> r.screen == s && r.thrown
  {
    var save := SaveRequest(store, s.editing, payload);
    if ok then Saved(CloseDialog(s), [save, FetchRequest(store)], false)
    else Saved(s, [save], true)
  }

  /** `handleDelete`: nothing without confirmation; otherwise the delete, and a
      refetch only if it succeeded. */
  function HandleDelete(store: Store, id: string, confirmed: bool, ok: bool): (rs: seq<Request<Body>>)
    ensures !confirmed ==> rs == []
    ensures confirmed ==> |rs| == (if ok then 2 else 1)
                          && rs[0] == Request(DELETE, ServicesUrl + "/" + id, RawBearer(store), NoBody)
    ensures confirmed && ok ==> rs[1] == FetchRequest(store)
  {
    if !confirmed then []
    else
      var del := Request(DELETE, ServiceUrl(id), RawBearer(store), NoBody);
      if ok then [del, FetchRequest(store)] else [del]
  }

  /** Pressing submit in the dialog, followed through the parent. Invalid input
      issues nothing. Valid input issues the save and, if it succeeds, the
      refetch; the dialog then closes (its `onClose` runs the same close
      handler once more). */
  function SubmitDialog(s: Screen, store: Store, parse: string -> Option<real>, ok: bool): (r: Flow)
    ensures r.screen.services == s.services && r.screen.loading == s.loading
    ensures r.screen.dialog.draft == s.dialog.draft && r.screen.dialog.file == s.dialog.file
    ensures ServiceForm.Validate(s.dialog.draft, s.dialog.file, parse) != map[] ==>
              && r.requests == []
              && r.screen == s.(dialog := s.dialog.(errors := ServiceForm.Validate(s.dialog.draft, s.dialog.file, parse)))
    ensures ServiceForm.Validate(s.dialog.draft, s.dialog.file, parse) == map[] ==>
              && r.requests == [SaveRequest(store, s.editing, ServiceForm.Pack(s.dialog.draft, s.dialog.file))]
                               + (if ok then [FetchRequest(store)] else [])
              && (ok ==> !r.screen.open && r.screen.editing == None)
              && (!ok ==> r.screen.open == s.open && r.screen.editing == s.editing)
              && !r.screen.dialog.loading
  {
    var sub := ServiceForm.Submit(s.dialog, parse, ok);
    match sub.sent
    case None => Flow(s.(dialog := sub.dialog), [])
    case Some(payload) =>
      var saved := HandleSubmit(s, store, payload, ok);
      var after := saved.screen.(dialog := sub.dialog);
      Flow(if sub.closed then CloseDialog(after) else after, saved.requests)
  }

  // ---------------------------------------------------------------------------
  // The screen driven by a sequence of user actions and server answers.

  datatype Event =
    | OpenFor(svc: Option<Service>)
    | CloseClicked
    | Typed(field: ServiceForm.TextField, value: string)
    | CategoryPicked(category: string)
    | DaysPicked(days: seq<string>)
    | PickedFile(picked: Option<ServiceForm.File>)
    | RemovedImage
    | SubmitClicked(ok: bool)
    | DeleteClicked(id: string, confirmed: bool, ok: bool)
    | Loaded(answer: Option<seq<Service>>)

  /** Whether the control an event comes from is on screen. Until the first
      fetch settles the screen shows only a spinner. The dialog is modal:
      while it is closed it renders no inputs, and while it is open it covers
      the list's buttons. */
  predicate OnScreen(s: Screen, e: Event) {
    match e
    case Loaded(_) => true
    case OpenFor(_) => !s.loading && !s.open
    case DeleteClicked(_, _, _) => !s.loading && !s.open
    case _ => !s.loading && s.open
  }

  /** One action or answer, with the requests it issues. An action whose
      control is not on screen changes nothing. A delete changes nothing on
      screen until its refetch arrives as a later `Loaded`. */
  function Step(s: Screen, store: Store, parse: string -> Option<real>, e: Event): (r: Flow)
    ensures !OnScreen(s, e) ==> r == Flow(s, [])
    ensures r.requests != [] ==> e.SubmitClicked? || (e.DeleteClicked? && e.confirmed)
  {
    if !OnScreen(s, e) then Flow(s, [])
    else
      match e
      case OpenFor(svc) => Flow(OpenDialog(s, svc), [])
      case CloseClicked => Flow(CloseDialog(s), [])
      case Typed(f, v) => Flow(s.(dialog := ServiceForm.HandleChange(s.dialog, f, v)), [])
      case CategoryPicked(v) => Flow(s.(dialog := ServiceForm.HandleCategoryChange(s.dialog, v)), [])
      case DaysPicked(days) => Flow(s.(dialog := ServiceForm.HandleAvailabilityChange(s.dialog, days)), [])
      case PickedFile(p) => Flow(s.(dialog := ServiceForm.HandleFileSelect(s.dialog, p)), [])
      case RemovedImage => Flow(s.(dialog := ServiceForm.HandleRemoveImage(s.dialog)), [])
      case SubmitClicked(ok) => SubmitDialog(s, store, parse, ok)
      case DeleteClicked(id, confirmed, ok) => Flow(s, HandleDelete(store, id, confirmed, ok))
      case Loaded(answer) => Flow(FetchServices(s, answer), [])
  }

  /** A sequence of actions and answers: the final screen and every request
      issued, in order. */
  function Run(s: Screen, store: Store, parse: string -> Option<real>, es: seq<Event>): Flow
    decreases |es|
  {
    if es == [] then Flow(s, [])
    else
      var first := Step(s, store, parse, es[0]);
      var rest := Run(first.screen, store, parse, es[1..]);
      Flow(rest.screen, first.requests + rest.requests)
  }

  /** A service is being edited only while the dialog is open. */
  predicate EditingOnlyWhileOpen(s: Screen) {
    s.editing.Some? ==> s.open
  }

  /** Each single action or answer keeps that pairing. */
  lemma StepKeepsEditingOnlyWhileOpen(s: Screen, store: Store, parse: string -> Option<real>, e: Event)
    requires EditingOnlyWhileOpen(s)
    ensures EditingOnlyWhileOpen(Step(s, store, parse, e).screen)
  {
    if e.SubmitClicked? {
      var r := SubmitDialog(s, store, parse, e.ok);
      assert (r.screen.open == s.open && r.screen.editing == s.editing) || (!r.screen.open && r.screen.editing == None);
    }
  }

  /** Every sequence of actions and answers keeps that pairing. */
  lemma {:induction false} RunKeepsEditingOnlyWhileOpen(s: Screen, store: Store, parse: string -> Option<real>, es: seq<Event>)
    requires EditingOnlyWhileOpen(s)
    ensures EditingOnlyWhileOpen(Run(s, store, parse, es).screen)
    decreases |es|
  {
    if es != [] {
      var next := Step(s, store, parse, es[0]).screen;
      StepKeepsEditingOnlyWhileOpen(s, store, parse, es[0]);
      RunKeepsEditingOnlyWhileOpen(next, store, parse, es[1..]);
    }
  }

  /** Every request the screen issues carries the hand-built header, whatever
      the shared client would have attached. */
  predicate HandBuilt(rs: seq<Request<Body>>, store: Store) {
    forall i :: 0 <= i < |rs| ==> rs[i].authorization == RawBearer(store)
  }

  lemma StepSendsHandBuiltHeader(s: Screen, store: Store, parse: string -> Option<real>, e: Event)
    ensures HandBuilt(Step(s, store, parse, e).requests, store)
  {
    if OnScreen(s, e) && e.SubmitClicked? {
      var v := ServiceForm.Validate(s.dialog.draft, s.dialog.file, parse);
      if v == map[] {
        var rs := Step(s, store, parse, e).requests;
        assert rs == [SaveRequest(store, s.editing, ServiceForm.Pack(s.dialog.draft, s.dialog.file))]
                     + (if e.ok then [FetchRequest(store)] else []);
      }
    }
  }

  /** Over any sequence of actions and answers, every request sent carries
      the hand-built header, and only saves and confirmed deletes send any. */
  lemma {:induction false} RunSendsHandBuiltHeader(s: Screen, store: Store, parse: string -> Option<real>, es: seq<Event>)
    ensures HandBuilt(Run(s, store, parse, es).requests, store)
    ensures (forall i :: 0 <= i < |es| ==> !es[i].SubmitClicked? && !(es[i].DeleteClicked? && es[i].confirmed))
            ==> Run(s, store, parse, es).requests == []
    decreases |es|
  {
    if es != [] {
      var first := Step(s, store, parse, es[0]);
      StepSendsHandBuiltHeader(s, store, parse, es[0]);
      RunSendsHandBuiltHeader(first.screen, store, parse, es[1..]);
      var rest := Run(first.screen, store, parse, es[1..]);
      assert Run(s, store, parse, es).requests == first.requests + rest.requests;
      if forall i :: 0 <= i < |es| ==> !es[i].SubmitClicked? && !(es[i].DeleteClicked? && es[i].confirmed) {
        assert forall i :: 0 <= i < |es[1..]| ==> es[1..][i] == es[i + 1];
      }
    }
  }

  /** Nothing but the first list answer changes the screen while it loads,
      and that answer ends the loading with the dialog still in its first
      state. */
  lemma FirstLoadGatesTheScreen(store: Store, parse: string -> Option<real>, e: Event, answer: Option<seq<Service>>)
    ensures !e.Loaded? ==> Step(Initial(), store, parse, e) == Flow(Initial(), [])
    ensures var s := Step(Initial(), store, parse, Loaded(answer)).screen;
            !s.loading && !s.open && s.editing == None && s.dialog == ServiceForm.InitialDialog()
  {
  }

  /** The dialog cannot tell "edit" from "add": opening it for a service shows
      exactly what opening it for a new one would, yet a valid submit then goes
      to `PUT /services/{id}`. Once the list has loaded the form is blank, so
      the edit cannot be submitted until everything has been typed in again. */
  lemma EditOpensUnfilledForm(s: Screen, svc: Service, store: Store, parse: string -> Option<real>, ok: bool,
                              answer: Option<seq<Service>>)
    ensures OpenDialog(s, Some(svc)).dialog == OpenDialog(s, None).dialog
    ensures var flow := SubmitDialog(OpenDialog(s, Some(svc)), store, parse, ok);
            flow.requests != [] ==> flow.requests[0].verb == PUT && flow.requests[0].url == ServicesUrl + "/" + svc.id
    ensures var s0 := Step(Initial(), store, parse, Loaded(answer)).screen;
            && Step(s0, store, parse, OpenFor(Some(svc))).screen.dialog.draft == ServiceForm.InitialDraft()
            && SubmitDialog(Step(s0, store, parse, OpenFor(Some(svc))).screen, store, parse, ok).requests == []
  {
    var s0 := Step(Initial(), store, parse, Loaded(answer)).screen;
    assert s0 == FetchServices(Initial(), answer);
    var s1 := Step(s0, store, parse, OpenFor(Some(svc))).screen;
    assert s1 == OpenDialog(s0, Some(svc));
    assert s1.dialog == ServiceForm.InitialDialog();
    ServiceForm.RequiredInputsReported(ServiceForm.InitialDraft(), None, parse);
    assert ServiceForm.NameKey in ServiceForm.Validate(s1.dialog.draft, s1.dialog.file, parse);
  }

  /** A confirmed delete targets the same address an edit of that service
      saves to, and services with different identifiers are never confused. */
  lemma DeleteTargetsOneService(store: Store, svc: Service, other: string, ok: bool, payload: seq<ServiceForm.Part>)
    ensures HandleDelete(store, svc.id, true, ok)[0].url == SaveRequest(store, Some(svc), payload).url
    ensures other != svc.id ==> HandleDelete(store, other, true, ok)[0].url != HandleDelete(store, svc.id, true, ok)[0].url
  {
    if other != svc.id {
      var prefix := ServicesUrl + "/";
      var a := HandleDelete(store, other, true, ok)[0].url;
      var b := HandleDelete(store, svc.id, true, ok)[0].url;
      assert a == prefix + other && b == prefix + svc.id;
      assert a[|prefix|..] == other && b[|prefix|..] == svc.id;
    }
  }

  /** Creating with a valid form and an image issues exactly one multipart
      create, then exactly one list refresh, in that order. */
  lemma ValidCreateThenRefresh(s: Screen, store: Store, parse: string -> Option<real>)
    requires s.editing.None? && s.dialog.file.Some?
    requires ServiceForm.Validate(s.dialog.draft, s.dialog.file, parse) == map[]
    ensures var rs := SubmitDialog(s, store, parse, true).requests;
            && |rs| == 2
            && rs[0].verb == POST && rs[0].url == ServicesUrl
            && rs[0].body == Multipart(ServiceForm.Pack(s.dialog.draft, s.dialog.file))
            && rs[1] == FetchRequest(store)
  {
  }
}
