/** The `ui` slice of the Redux store: toast and modal stacks, navigation
    toggles, per-form flags and a slow-render counter. Every reducer is a pure
    `UIState -> UIState` function; the ids the reducers draw from the clock and
    the random generator are passed in. */
module UiSlice {
  import opened Wrappers
  import opened Text
  import Seqs
  import opened Renders

  datatype ToastKind = Success | Error | Info | Warning

  /** A toast's action button; its click handler is not modelled. */
  datatype ToastAction = ToastAction(caption: string)

  datatype Toast = Toast(
    id: string,
    kind: ToastKind,
    title: string,
    message: Option<string>,
    duration: Option<int>,
    action: Option<ToastAction>)

  /** The payload of `addToast`: a toast without its id. */
  datatype ToastInput = ToastInput(
    kind: ToastKind,
    title: string,
    message: Option<string>,
    duration: Option<int>,
    action: Option<ToastAction>)

  datatype ModalKind = Confirm | InfoModal | FormModal

  /** A modal; its confirm and cancel callbacks are not modelled. */
  datatype Modal = Modal(
    id: string,
    kind: ModalKind,
    title: string,
    content: Option<string>,
    data: Option<map<string, string>>)

  /** The payload of `openModal`: a modal without its id. */
  datatype ModalInput = ModalInput(
    kind: ModalKind,
    title: string,
    content: Option<string>,
    data: Option<map<string, string>>)

  datatype FormName = ContactForm | BookingForm

  datatype FormState = FormState(isDirty: bool, isSubmitting: bool, errors: map<string, string>)

  const PristineForm := FormState(false, false, map[])

  datatype Forms = Forms(contact: FormState, booking: FormState) {
    function Get(f: FormName): FormState {
      match f
      case ContactForm => contact
      case BookingForm => booking
    }

    /** The forms with `f` replaced by `fs`. */
    function With(f: FormName, fs: FormState): (r: Forms)
      ensures r.Get(f) == fs
      ensures forall g :: g != f ==> r.Get(g) == Get(g)
    {
      match f
      case ContactForm => this.(contact := fs)
      case BookingForm => this.(booking := fs)
    }
  }

  datatype PerformanceStats = PerformanceStats(lastRenderTime: Option<real>, slowRenders: nat)

  datatype UIState = UIState(
    globalLoading: bool,
    toasts: seq<Toast>,
    modals: seq<Modal>,
    mobileMenuOpen: bool,
    sidebarCollapsed: bool,
    pageTransitioning: bool,
    forms: Forms,
    performance: PerformanceStats)

  const InitialState := UIState(
    false, [], [], false, false, false,
    Forms(PristineForm, PristineForm),
    PerformanceStats(None, 0))

  /** `s` and `r` agree on everything but the toasts. */
  predicate SameButToasts(s: UIState, r: UIState) {
    r == s.(toasts := r.toasts)
  }

  predicate SameButModals(s: UIState, r: UIState) {
    r == s.(modals := r.modals)
  }

  predicate SameButForms(s: UIState, r: UIState) {
    r == s.(forms := r.forms)
  }

  function SetGlobalLoading(s: UIState, on: bool): (r: UIState)
    ensures r.globalLoading == on && r == s.(globalLoading := r.globalLoading)
  {
    s.(globalLoading := on)
  }

  /** The id `addToast` gives: the clock's milliseconds in decimal followed by
      nine base-36 random characters (passed in as `suffix`). */
  function ToastId(nowMs: nat, suffix: string): (r: string)
    ensures |r| == |Decimal(nowMs)| + |suffix|
    ensures r[..|Decimal(nowMs)|] == Decimal(nowMs) && r[|Decimal(nowMs)|..] == suffix
  {
    Decimal(nowMs) + suffix
  }

  function AddToast(s: UIState, input: ToastInput, nowMs: nat, suffix: string): (r: UIState)
    ensures SameButToasts(s, r)
    ensures |r.toasts| == |s.toasts| + 1 && r.toasts[..|s.toasts|] == s.toasts
    ensures var t := r.toasts[|s.toasts|];
      && t.id == ToastId(nowMs, suffix)
      && t.kind == input.kind && t.title == input.title && t.message == input.message
      && t.duration == input.duration && t.action == input.action
  {
    var t := Toast(ToastId(nowMs, suffix), input.kind, input.title, input.message, input.duration, input.action);
    assert (s.toasts + [t])[..|s.toasts|] == s.toasts;
    s.(toasts := s.toasts + [t])
  }

  /** The test `removeToast` drops a toast by. */
  function ToastIdIs(id: string): Toast -> bool {
    (t: Toast) => t.id == id
  }

  /** `toasts.filter(t => t.id !== id)`. */
  function RemoveToast(s: UIState, id: string): (r: UIState)
    ensures SameButToasts(s, r)
    ensures Seqs.KeepsInOrder(r.toasts, s.toasts, ToastIdIs(id))
    ensures forall t :: multiset(r.toasts)[t] == if t.id == id then 0 else multiset(s.toasts)[t]
    ensures forall t :: t in r.toasts <==> t in s.toasts && t.id != id
    ensures (forall i :: 0 <= i < |s.toasts| ==> s.toasts[i].id != id) ==> r == s
  {
    s.(toasts := Seqs.RemoveWhere(s.toasts, ToastIdIs(id)))
  }

  function ClearToasts(s: UIState): (r: UIState)
    ensures SameButToasts(s, r) && r.toasts == []
  {
    s.(toasts := [])
  }

  /** The id `openModal` gives: the clock's milliseconds in decimal. */
  function ModalId(nowMs: nat): (r: string)
    ensures |r| > 0 && AllDigits(r) && DigitsValue(r) == nowMs
  {
    DigitsValueOfDecimal(nowMs);
    Decimal(nowMs)
  }

  function OpenModal(s: UIState, input: ModalInput, nowMs: nat): (r: UIState)
    ensures SameButModals(s, r)
    ensures |r.modals| == |s.modals| + 1 && r.modals[..|s.modals|] == s.modals
    ensures r.modals[|s.modals|] == Modal(ModalId(nowMs), input.kind, input.title, input.content, input.data)
  {
    var m := Modal(ModalId(nowMs), input.kind, input.title, input.content, input.data);
    assert (s.modals + [m])[..|s.modals|] == s.modals;
    s.(modals := s.modals + [m])
  }

  /** The test `closeModal` drops a modal by. */
  function ModalIdIs(id: string): Modal -> bool {
    (m: Modal) => m.id == id
  }

  /** `modals.filter(m => m.id !== id)`. */
  function CloseModal(s: UIState, id: string): (r: UIState)
    ensures SameButModals(s, r)
    ensures Seqs.KeepsInOrder(r.modals, s.modals, ModalIdIs(id))
    ensures forall m :: multiset(r.modals)[m] == if m.id == id then 0 else multiset(s.modals)[m]
    ensures forall m :: m in r.modals <==> m in s.modals && m.id != id
    ensures (forall i :: 0 <= i < |s.modals| ==> s.modals[i].id != id) ==> r == s
  {
    s.(modals := Seqs.RemoveWhere(s.modals, ModalIdIs(id)))
  }

  function CloseAllModals(s: UIState): (r: UIState)
    ensures SameButModals(s, r) && r.modals == []
  {
    s.(modals := [])
  }

  function ToggleMobileMenu(s: UIState): (r: UIState)
    ensures r.mobileMenuOpen == !s.mobileMenuOpen && r == s.(mobileMenuOpen := r.mobileMenuOpen)
  {
    s.(mobileMenuOpen := !s.mobileMenuOpen)
  }

  function SetMobileMenuOpen(s: UIState, open: bool): (r: UIState)
    ensures r.mobileMenuOpen == open && r == s.(mobileMenuOpen := r.mobileMenuOpen)
  {
    s.(mobileMenuOpen := open)
  }

  function ToggleSidebar(s: UIState): (r: UIState)
    ensures r.sidebarCollapsed == !s.sidebarCollapsed && r == s.(sidebarCollapsed := r.sidebarCollapsed)
  {
    s.(sidebarCollapsed := !s.sidebarCollapsed)
  }

  function SetSidebarCollapsed(s: UIState, collapsed: bool): (r: UIState)
    ensures r.sidebarCollapsed == collapsed && r == s.(sidebarCollapsed := r.sidebarCollapsed)
  {
    s.(sidebarCollapsed := collapsed)
  }

  function SetPageTransitioning(s: UIState, on: bool): (r: UIState)
    ensures r.pageTransitioning == on && r == s.(pageTransitioning := r.pageTransitioning)
  {
    s.(pageTransitioning := on)
  }

  function SetFormDirty(s: UIState, f: FormName, dirty: bool): (r: UIState)
    ensures SameButForms(s, r)
    ensures r.forms.Get(f) == s.forms.Get(f).(isDirty := dirty)
    ensures forall g :: g != f ==> r.forms.Get(g) == s.forms.Get(g)
  {
    s.(forms := s.forms.With(f, s.forms.Get(f).(isDirty := dirty)))
  }

  function SetFormSubmitting(s: UIState, f: FormName, submitting: bool): (r: UIState)
    ensures SameButForms(s, r)
    ensures r.forms.Get(f) == s.forms.Get(f).(isSubmitting := submitting)
    ensures forall g :: g != f ==> r.forms.Get(g) == s.forms.Get(g)
  {
    s.(forms := s.forms.With(f, s.forms.Get(f).(isSubmitting := submitting)))
  }

  function SetFormErrors(s: UIState, f: FormName, errors: map<string, string>): (r: UIState)
    ensures SameButForms(s, r)
    ensures r.forms.Get(f) == s.forms.Get(f).(errors := errors)
    ensures forall g :: g != f ==> r.forms.Get(g) == s.forms.Get(g)
  {
    s.(forms := s.forms.With(f, s.forms.Get(f).(errors := errors)))
  }

  function ClearFormErrors(s: UIState, f: FormName): (r: UIState)
    ensures SameButForms(s, r)
    ensures r.forms.Get(f) == s.forms.Get(f).(errors := map[])
    ensures forall g :: g != f ==> r.forms.Get(g) == s.forms.Get(g)
  {
    SetFormErrors(s, f, map[])
  }

  function ResetForm(s: UIState, f: FormName): (r: UIState)
    ensures SameButForms(s, r)
    ensures r.forms.Get(f) == PristineForm && r.forms.Get(f) == InitialState.forms.Get(f)
    ensures forall g :: g != f ==> r.forms.Get(g) == s.forms.Get(g)
  {
    s.(forms := s.forms.With(f, PristineForm))
  }

  function RecordRenderTime(s: UIState, ms: real): (r: UIState)
    ensures r == s.(performance := r.performance)
    ensures r.performance.lastRenderTime == Some(ms)
    ensures ms > SLOW_RENDER_MS ==> r.performance.slowRenders == s.performance.slowRenders + 1
    ensures ms <= SLOW_RENDER_MS ==> r.performance.slowRenders == s.performance.slowRenders
  {
    var slow := if ms > SLOW_RENDER_MS then s.performance.slowRenders + 1 else s.performance.slowRenders;
    s.(performance := PerformanceStats(Some(ms), slow))
  }

  function ResetPerformanceStats(s: UIState): (r: UIState)
    ensures r == s.(performance := r.performance)
    ensures r.performance == InitialState.performance
  {
    s.(performance := PerformanceStats(None, 0))
  }

  /** The actions of the slice, with the clock and random values they consume. */
  datatype Action =
    | SetGlobalLoadingAction(on: bool)
    | AddToastAction(toast: ToastInput, nowMs: nat, suffix: string)
    | RemoveToastAction(id: string)
    | ClearToastsAction
    | OpenModalAction(modal: ModalInput, nowMs: nat)
    | CloseModalAction(id: string)
    | CloseAllModalsAction
    | ToggleMobileMenuAction
    | SetMobileMenuOpenAction(on: bool)
    | ToggleSidebarAction
    | SetSidebarCollapsedAction(on: bool)
    | SetPageTransitioningAction(on: bool)
    | SetFormDirtyAction(form: FormName, dirty: bool)
    | SetFormSubmittingAction(form: FormName, submitting: bool)
    | SetFormErrorsAction(form: FormName, errors: map<string, string>)
    | ClearFormErrorsAction(form: FormName)
    | ResetFormAction(form: FormName)
    | RecordRenderTimeAction(ms: real)
    | ResetPerformanceStatsAction

  /** The actions of the form reducers. */
  predicate TouchesForms(a: Action) {
    a.SetFormDirtyAction? || a.SetFormSubmittingAction? || a.SetFormErrorsAction?
    || a.ClearFormErrorsAction? || a.ResetFormAction?
  }

  /** The case table of `uiSlice.reducer`: each action goes to its reducer. */
  function Dispatch(s: UIState, a: Action): UIState
  {
    match a
    case SetGlobalLoadingAction(on) => SetGlobalLoading(s, on)
    case AddToastAction(t, nowMs, suffix) => AddToast(s, t, nowMs, suffix)
    case RemoveToastAction(id) => RemoveToast(s, id)
    case ClearToastsAction => ClearToasts(s)
    case OpenModalAction(m, nowMs) => OpenModal(s, m, nowMs)
    case CloseModalAction(id) => CloseModal(s, id)
    case CloseAllModalsAction => CloseAllModals(s)
    case ToggleMobileMenuAction => ToggleMobileMenu(s)
    case SetMobileMenuOpenAction(on) => SetMobileMenuOpen(s, on)
    case ToggleSidebarAction => ToggleSidebar(s)
    case SetSidebarCollapsedAction(on) => SetSidebarCollapsed(s, on)
    case SetPageTransitioningAction(on) => SetPageTransitioning(s, on)
    case SetFormDirtyAction(f, d) => SetFormDirty(s, f, d)
    case SetFormSubmittingAction(f, b) => SetFormSubmitting(s, f, b)
    case SetFormErrorsAction(f, e) => SetFormErrors(s, f, e)
    case ClearFormErrorsAction(f) => ClearFormErrors(s, f)
    case ResetFormAction(f) => ResetForm(s, f)
    case RecordRenderTimeAction(ms) => RecordRenderTime(s, ms)
    case ResetPerformanceStatsAction => ResetPerformanceStats(s)
  }

  /** No action changes a part of the state it does not own. */
  lemma DispatchFrames(s: UIState, a: Action)
    ensures !a.SetGlobalLoadingAction? ==> Dispatch(s, a).globalLoading == s.globalLoading
    ensures !(a.AddToastAction? || a.RemoveToastAction? || a.ClearToastsAction?) ==> Dispatch(s, a).toasts == s.toasts
    ensures !(a.OpenModalAction? || a.CloseModalAction? || a.CloseAllModalsAction?) ==> Dispatch(s, a).modals == s.modals
    ensures !(a.ToggleMobileMenuAction? || a.SetMobileMenuOpenAction?) ==> Dispatch(s, a).mobileMenuOpen == s.mobileMenuOpen
    ensures !(a.ToggleSidebarAction? || a.SetSidebarCollapsedAction?) ==> Dispatch(s, a).sidebarCollapsed == s.sidebarCollapsed
    ensures !a.SetPageTransitioningAction? ==> Dispatch(s, a).pageTransitioning == s.pageTransitioning
    ensures !TouchesForms(a) ==> Dispatch(s, a).forms == s.forms
    ensures !(a.RecordRenderTimeAction? || a.ResetPerformanceStatsAction?) ==> Dispatch(s, a).performance == s.performance
  {
  }

  /** What the toast and modal actions do to their lists. */
  lemma DispatchToastsAndModals(s: UIState, a: Action)
    ensures a.AddToastAction? ==>
      Dispatch(s, a).toasts == s.toasts + [Toast(ToastId(a.nowMs, a.suffix), a.toast.kind, a.toast.title, a.toast.message, a.toast.duration, a.toast.action)]
    ensures a.RemoveToastAction? ==> Dispatch(s, a).toasts == Seqs.RemoveWhere(s.toasts, ToastIdIs(a.id))
    ensures a.ClearToastsAction? ==> Dispatch(s, a).toasts == []
    ensures a.OpenModalAction? ==>
      Dispatch(s, a).modals == s.modals + [Modal(ModalId(a.nowMs), a.modal.kind, a.modal.title, a.modal.content, a.modal.data)]
    ensures a.CloseModalAction? ==> Dispatch(s, a).modals == Seqs.RemoveWhere(s.modals, ModalIdIs(a.id))
    ensures a.CloseAllModalsAction? ==> Dispatch(s, a).modals == []
  {
  }

  /** What the flag actions do to their flags. */
  lemma DispatchFlags(s: UIState, a: Action)
    ensures a.SetGlobalLoadingAction? ==> Dispatch(s, a).globalLoading == a.on
    ensures a.ToggleMobileMenuAction? ==> Dispatch(s, a).mobileMenuOpen == !s.mobileMenuOpen
    ensures a.SetMobileMenuOpenAction? ==> Dispatch(s, a).mobileMenuOpen == a.on
    ensures a.ToggleSidebarAction? ==> Dispatch(s, a).sidebarCollapsed == !s.sidebarCollapsed
    ensures a.SetSidebarCollapsedAction? ==> Dispatch(s, a).sidebarCollapsed == a.on
    ensures a.SetPageTransitioningAction? ==> Dispatch(s, a).pageTransitioning == a.on
  {
  }

  /** What the form actions do to the named form and the other one. */
  lemma DispatchForms(s: UIState, a: Action)
    ensures TouchesForms(a) ==> forall g :: g != a.form ==> Dispatch(s, a).forms.Get(g) == s.forms.Get(g)
    ensures a.SetFormDirtyAction? ==> Dispatch(s, a).forms.Get(a.form) == s.forms.Get(a.form).(isDirty := a.dirty)
    ensures a.SetFormSubmittingAction? ==> Dispatch(s, a).forms.Get(a.form) == s.forms.Get(a.form).(isSubmitting := a.submitting)
    ensures a.SetFormErrorsAction? ==> Dispatch(s, a).forms.Get(a.form) == s.forms.Get(a.form).(errors := a.errors)
    ensures a.ClearFormErrorsAction? ==> Dispatch(s, a).forms.Get(a.form) == s.forms.Get(a.form).(errors := map[])
    ensures a.ResetFormAction? ==> Dispatch(s, a).forms.Get(a.form) == PristineForm
  {
  }

  /** What the render-statistics actions do. */
  lemma DispatchPerformance(s: UIState, a: Action)
    ensures a.RecordRenderTimeAction? ==> Dispatch(s, a).performance == PerformanceStats(Some(a.ms),
      s.performance.slowRenders + if a.ms > SLOW_RENDER_MS then 1 else 0)
    ensures a.ResetPerformanceStatsAction? ==> Dispatch(s, a).performance == InitialState.performance
  {
  }

  /** `uiSlice.reducer`: each part of the state has its own actions, and no
      other action changes it. */
  function Reduce(s: UIState, a: Action): (r: UIState)
    ensures !a.SetGlobalLoadingAction? ==> r.globalLoading == s.globalLoading
    ensures !(a.AddToastAction? || a.RemoveToastAction? || a.ClearToastsAction?) ==> r.toasts == s.toasts
    ensures !(a.OpenModalAction? || a.CloseModalAction? || a.CloseAllModalsAction?) ==> r.modals == s.modals
    ensures !(a.ToggleMobileMenuAction? || a.SetMobileMenuOpenAction?) ==> r.mobileMenuOpen == s.mobileMenuOpen
    ensures !(a.ToggleSidebarAction? || a.SetSidebarCollapsedAction?) ==> r.sidebarCollapsed == s.sidebarCollapsed
    ensures !a.SetPageTransitioningAction? ==> r.pageTransitioning == s.pageTransitioning
    ensures !TouchesForms(a) ==> r.forms == s.forms
    ensures !(a.RecordRenderTimeAction? || a.ResetPerformanceStatsAction?) ==> r.performance == s.performance
    // What each action does to its own part.
    ensures a.SetGlobalLoadingAction? ==> r.globalLoading == a.on
    ensures a.AddToastAction? ==>
      r.toasts == s.toasts + [Toast(ToastId(a.nowMs, a.suffix), a.toast.kind, a.toast.title, a.toast.message, a.toast.duration, a.toast.action)]
    ensures a.RemoveToastAction? ==> r.toasts == Seqs.RemoveWhere(s.toasts, ToastIdIs(a.id))
    ensures a.ClearToastsAction? ==> r.toasts == []
    ensures a.OpenModalAction? ==>
      r.modals == s.modals + [Modal(ModalId(a.nowMs), a.modal.kind, a.modal.title, a.modal.content, a.modal.data)]
    ensures a.CloseModalAction? ==> r.modals == Seqs.RemoveWhere(s.modals, ModalIdIs(a.id))
    ensures a.CloseAllModalsAction? ==> r.modals == []
    ensures a.ToggleMobileMenuAction? ==> r.mobileMenuOpen == !s.mobileMenuOpen
    ensures a.SetMobileMenuOpenAction? ==> r.mobileMenuOpen == a.on
    ensures a.ToggleSidebarAction? ==> r.sidebarCollapsed == !s.sidebarCollapsed
    ensures a.SetSidebarCollapsedAction? ==> r.sidebarCollapsed == a.on
    ensures a.SetPageTransitioningAction? ==> r.pageTransitioning == a.on
    ensures TouchesForms(a) ==> forall g :: g != a.form ==> r.forms.Get(g) == s.forms.Get(g)
    ensures a.SetFormDirtyAction? ==> r.forms.Get(a.form) == s.forms.Get(a.form).(isDirty := a.dirty)
    ensures a.SetFormSubmittingAction? ==> r.forms.Get(a.form) == s.forms.Get(a.form).(isSubmitting := a.submitting)
    ensures a.SetFormErrorsAction? ==> r.forms.Get(a.form) == s.forms.Get(a.form).(errors := a.errors)
    ensures a.ClearFormErrorsAction? ==> r.forms.Get(a.form) == s.forms.Get(a.form).(errors := map[])
    ensures a.ResetFormAction? ==> r.forms.Get(a.form) == PristineForm
    ensures a.RecordRenderTimeAction? ==> r.performance == PerformanceStats(Some(a.ms),
      s.performance.slowRenders + if a.ms > SLOW_RENDER_MS then 1 else 0)
    ensures a.ResetPerformanceStatsAction? ==> r.performance == InitialState.performance
  {
    DispatchFrames(s, a);
    DispatchToastsAndModals(s, a);
    DispatchFlags(s, a);
    DispatchForms(s, a);
    DispatchPerformance(s, a);
    Dispatch(s, a)
  }

  /** The state after dispatching `actions` in order. */
  function Run(s: UIState, actions: seq<Action>): UIState
    decreases |actions|
  {
    if |actions| == 0 then s else Run(Reduce(s, actions[0]), actions[1..])
  }

  /** Removing a toast twice is removing it once. */
  lemma RemoveToastIdempotent(s: UIState, id: string)
    ensures RemoveToast(RemoveToast(s, id), id) == RemoveToast(s, id)
  {
    Seqs.RemoveWhereIdempotent(s.toasts, ToastIdIs(id));
  }

  /** Removing the toast just added, when no earlier toast shares its id, gives back the earlier state. */
  lemma {:induction false} RemoveAddedToast(s: UIState, input: ToastInput, nowMs: nat, suffix: string)
    requires forall i :: 0 <= i < |s.toasts| ==> s.toasts[i].id != ToastId(nowMs, suffix)
    ensures RemoveToast(AddToast(s, input, nowMs, suffix), ToastId(nowMs, suffix)) == s
  {
    var id := ToastId(nowMs, suffix);
    var drop := ToastIdIs(id);
    var added := AddToast(s, input, nowMs, suffix).toasts;
    assert added == s.toasts + [added[|s.toasts|]];
    Seqs.RemoveWhereAppend(s.toasts, [added[|s.toasts|]], drop);
  }

  /** Two modals opened in the same millisecond share an id, and closing that id closes both. */
  lemma SameMillisecondModalsCloseTogether(s: UIState, a: ModalInput, b: ModalInput, nowMs: nat)
    ensures var r := OpenModal(OpenModal(s, a, nowMs), b, nowMs);
      && r.modals[|s.modals|].id == r.modals[|s.modals| + 1].id
      && forall m :: m in CloseModal(r, ModalId(nowMs)).modals ==> m.id != ModalId(nowMs)
  {
  }

  /** Modals opened at different milliseconds get different ids. */
  lemma ModalIdsDifferAcrossMilliseconds(t1: nat, t2: nat)
    ensures ModalId(t1) == ModalId(t2) <==> t1 == t2
  {
    DecimalInjective(t1, t2);
  }

  /** With suffixes of one length, as `substr(2, 9)` gives, two toast ids are
      equal exactly when both the milliseconds and the suffixes are. */
  lemma ToastIdsDiffer(t1: nat, s1: string, t2: nat, s2: string)
    requires |s1| == |s2|
    ensures ToastId(t1, s1) == ToastId(t2, s2) <==> t1 == t2 && s1 == s2
  {
    if ToastId(t1, s1) == ToastId(t2, s2) {
      DecimalInjective(t1, t2);
    }
  }

  /** Toggling either flag twice restores the state. */
  lemma ToggleTwiceIsIdentity(s: UIState)
    ensures ToggleMobileMenu(ToggleMobileMenu(s)) == s
    ensures ToggleSidebar(ToggleSidebar(s)) == s
  {
  }

  function RenderActions(times: seq<real>): (r: seq<Action>)
    ensures |r| == |times| && forall i :: 0 <= i < |times| ==> r[i] == RecordRenderTimeAction(times[i])
  {
    if |times| == 0 then [] else [RecordRenderTimeAction(times[0])] + RenderActions(times[1..])
  }

  /** Recording a run of render times raises `slowRenders` by the number of slow
      ones, remembers the last time, and leaves the rest of the state alone. */
  lemma {:induction false} RecordRenderTimesCounts(s: UIState, times: seq<real>)
    ensures var r := Run(s, RenderActions(times));
      && r.performance.slowRenders == s.performance.slowRenders + SlowCount(times)
      && r.performance.lastRenderTime == (if |times| == 0 then s.performance.lastRenderTime else Some(times[|times| - 1]))
      && r == s.(performance := r.performance)
    decreases |times|
  {
    if |times| > 0 {
      var actions := RenderActions(times);
      assert actions[1..] == RenderActions(times[1..]);
      RecordRenderTimesCounts(RecordRenderTime(s, times[0]), times[1..]);
    }
  }

  /** Any two form actions (dirty, submitting, errors, clearing errors, reset)
      on different forms commute. */
  lemma FormUpdatesCommute(s: UIState, a: Action, b: Action)
    requires TouchesForms(a) && TouchesForms(b) && a.form != b.form
    ensures Reduce(Reduce(s, a), b) == Reduce(Reduce(s, b), a)
  {
  }
}
