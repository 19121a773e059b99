/** The nested time windows of authorization, dispatch and supervisor intent, in nanoseconds. */
module AuthorityWindows {
  import opened Common

  const SECOND := 1_000_000_000
  const MAX_APPROVAL_AGE := 5 * 60 * SECOND
  const MAX_AUTHORIZATION_LIFETIME := 10 * 60 * SECOND
  const MAX_DISPATCH_LIFETIME := 4 * 60 * SECOND
  const MAX_INTENT_LIFETIME := 60 * SECOND

  // A window as written in a record: an end that does not parse as a UTC instant is None.
  datatype Window = Window(begin: Option<int>, end: Option<int>)

  predicate Parses(w: Window) { w.begin.Some? && w.end.Some? }

  predicate Within(w: Window, now: int)
    requires Parses(w)
  {
    w.begin.value <= now < w.end.value
  }

  // When every release certificate, and every bundle entry that declares it, has begun and not ended.
  datatype Span = Span(begin: int, end: int)

  predicate TrustBegun(trust: seq<Span>, now: int) { forall s <- trust :: s.begin <= now }
  predicate TrustNotEnded(trust: seq<Span>, now: int) { forall s <- trust :: now < s.end }

  // The times that validateAuthorizationRecord checks.
  predicate AuthorizationLive(approval: Window, now: int) {
    && Parses(approval) && approval.begin.value < approval.end.value
    && approval.end.value - approval.begin.value <= MAX_AUTHORIZATION_LIFETIME
    && Within(approval, now) && now - approval.begin.value <= MAX_APPROVAL_AGE
  }

  // The times that validateDispatchRecord checks whether or not it is asked for freshness.
  predicate DispatchNested(approval: Window, dispatch: Window) {
    && Parses(dispatch) && dispatch.begin.value < dispatch.end.value
    && dispatch.end.value - dispatch.begin.value <= MAX_DISPATCH_LIFETIME
    && Parses(approval) && approval.begin.value <= dispatch.begin.value < approval.end.value
    && dispatch.end.value <= approval.end.value
  }

  predicate DispatchFresh(trust: seq<Span>, approval: Window, dispatch: Window, now: int) {
    && DispatchNested(approval, dispatch)
    && TrustBegun(trust, now) && TrustNotEnded(trust, now)
    && AuthorizationLive(approval, now) && Within(dispatch, now)
  }

  // The times that validateSupervisorIntentAuthority checks, ending with the last live nanosecond.
  predicate IntentWindow(trust: seq<Span>, approval: Window, dispatch: Window, intent: Window) {
    && Parses(intent) && intent.begin.value < intent.end.value
    && intent.end.value - intent.begin.value <= MAX_INTENT_LIFETIME
    && Parses(dispatch) && dispatch.begin.value <= intent.begin.value && intent.end.value <= dispatch.end.value
    && intent.begin.value <= intent.end.value - 1
    && DispatchNested(approval, dispatch)
    && DispatchFresh(trust, approval, dispatch, intent.end.value - 1)
  }

  // validateSupervisorIntentFreshness
  predicate IntentFresh(trust: seq<Span>, approval: Window, dispatch: Window, intent: Window, now: int) {
    Parses(intent) && Within(intent, now) && DispatchFresh(trust, approval, dispatch, now)
  }

  /** Checking one instant suffices: once the authority has passed at its last live nanosecond, the intent
      is fresh at exactly the instants of its own window at which the certificates have begun. */
  lemma OneInstantSuffices(trust: seq<Span>, approval: Window, dispatch: Window, intent: Window, now: int)
    requires IntentWindow(trust, approval, dispatch, intent)
    ensures IntentFresh(trust, approval, dispatch, intent, now) <==> Within(intent, now) && TrustBegun(trust, now)
  {
  }

  /** What that one check decides: given the nesting, the authority passes exactly when it is fresh at the last
      live nanosecond, that is, when the certificates cover it, the approval's lifetime is in bounds, and the
      window closes within five minutes and a nanosecond of the approval. */
  lemma LastInstantDecides(trust: seq<Span>, approval: Window, dispatch: Window, intent: Window)
    requires Parses(intent) && Parses(dispatch) && DispatchNested(approval, dispatch)
    requires intent.begin.value < intent.end.value && intent.end.value - intent.begin.value <= MAX_INTENT_LIFETIME
    requires dispatch.begin.value <= intent.begin.value && intent.end.value <= dispatch.end.value
    ensures IntentWindow(trust, approval, dispatch, intent) <==>
            IntentFresh(trust, approval, dispatch, intent, intent.end.value - 1)
    ensures IntentWindow(trust, approval, dispatch, intent) <==>
            && TrustBegun(trust, intent.end.value - 1) && TrustNotEnded(trust, intent.end.value - 1)
            && approval.end.value - approval.begin.value <= MAX_AUTHORIZATION_LIFETIME
            && intent.end.value - approval.begin.value <= MAX_APPROVAL_AGE + 1
  {
  }

  /** In numbers: an intent lasts at most a minute, inside a dispatch of at most four, inside an approval of at most
      ten; it is all over within five minutes and a nanosecond of the approval, and the certificates cover the last
      nanosecond. The authority passes exactly then. */
  lemma IntentWindowIff(trust: seq<Span>, approval: Window, dispatch: Window, intent: Window)
    ensures IntentWindow(trust, approval, dispatch, intent) <==>
            && Parses(approval) && Parses(dispatch) && Parses(intent)
            && 0 < intent.end.value - intent.begin.value <= 60_000_000_000
            && 0 < dispatch.end.value - dispatch.begin.value <= 240_000_000_000
            && 0 < approval.end.value - approval.begin.value <= 600_000_000_000
            && approval.begin.value <= dispatch.begin.value <= intent.begin.value
            && intent.end.value <= dispatch.end.value <= approval.end.value
            && intent.end.value - approval.begin.value <= 300_000_000_001
            && forall s <- trust :: s.begin < intent.end.value <= s.end
  {
  }

  /** The windows nest, and the innermost closes within five minutes and a nanosecond of the approval. */
  lemma WindowsNest(trust: seq<Span>, approval: Window, dispatch: Window, intent: Window)
    requires IntentWindow(trust, approval, dispatch, intent)
    ensures && approval.begin.value <= dispatch.begin.value <= intent.begin.value
            && intent.begin.value < intent.end.value <= dispatch.end.value <= approval.end.value
    ensures intent.end.value <= approval.begin.value + MAX_APPROVAL_AGE + 1
    ensures forall s <- trust :: s.begin < intent.end.value <= s.end
  {
  }

  /** The extra nanosecond is reached. */
  lemma FiveMinutesAndANanosecond()
    ensures exists approval, dispatch, intent ::
              && IntentWindow([], approval, dispatch, intent)
              && intent.end == Some(MAX_APPROVAL_AGE + 1) && approval.begin == Some(0)
  {
    var approval := Window(Some(0), Some(MAX_AUTHORIZATION_LIFETIME));
    var dispatch := Window(Some(2 * 60 * SECOND), Some(6 * 60 * SECOND));
    var intent := Window(Some(MAX_APPROVAL_AGE), Some(MAX_APPROVAL_AGE + 1));
    assert IntentWindow([], approval, dispatch, intent);
  }

  /** An earlier instant would not do: an intent can be fresh when it is created and no longer at its last live
      nanosecond, a certificate having ended in between. */
  lemma EarlierInstantDoesNotSuffice()
    ensures exists trust, approval, dispatch, intent ::
              && IntentFresh(trust, approval, dispatch, intent, 0) && intent.begin == Some(0)
              && !IntentWindow(trust, approval, dispatch, intent)
              && !IntentFresh(trust, approval, dispatch, intent, 1) && intent.end == Some(2)
  {
    var window := Window(Some(0), Some(2));
    var trust := [Span(0, 1)];
    assert trust[0] in trust;
    assert IntentFresh(trust, window, window, window, 0);
    assert !TrustNotEnded(trust, 1);
    assert !IntentWindow(trust, window, window, window);
  }
}
