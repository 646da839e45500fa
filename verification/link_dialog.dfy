/**
 * The social-account linking dialog as a state machine on values. A State
 * holds the component's four pieces of state and the log of calls made to
 * the `verify` callback the dialog's owner supplies. Step says what each
 * event does to a State; Run applies a sequence of events.
 */
module LinkDialog {
  import opened Handle
  import opened Socials

  datatype Option<T> = None | Some(value: T)

  /** One invocation of the owner's `verify(social, socialName)` callback. */
  datatype VerifyCall = VerifyCall(social: Social, socialName: string)

  datatype State = State(
    open: bool,
    social: Option<Social>,
    socialName: string,
    shared: bool,
    calls: seq<VerifyCall>)

  /** The initial values given to useState. */
  const Initial := State(false, None, "", false, [])

  /** What can happen to the dialog: the owner opens it for a network, the
      user types or pastes into the user-name field, the share popup closes,
      the dialog is dismissed, or the user clicks the submit button. */
  datatype Event =
    | Opened(p: Social)
    | NameTyped(text: string)
    | NamePasted(text: string)
    | ShareWindowClosed
    | DialogClosed
    | SubmitClicked

  /** `close`: only hides the dialog. */
  function Close(d: State): State {
    d.(open := false)
  }

  /** `handleShared`: with a network chosen and a non-empty name, call
      verify with both and close the dialog; otherwise do nothing. Note that
      it does not look at `shared`. */
  function HandleShared(d: State): State {
    if d.social.Some? && d.socialName != [] then
      Close(d.(calls := d.calls + [VerifyCall(d.social.value, d.socialName)]))
    else
      d
  }

  /** The submit button is rendered with `disabled={!shared}`. */
  predicate SubmitEnabled(d: State) {
    d.shared
  }

  function Step(d: State, e: Event): State {
    match e
    case Opened(p) => d.(social := Some(p), open := true, shared := false, socialName := "")
    case NameTyped(text) => d.(socialName := Extract(text))
    case NamePasted(text) => d.(socialName := Extract(text))
    case ShareWindowClosed => d.(shared := true)
    case DialogClosed => Close(d)
    case SubmitClicked => if SubmitEnabled(d) then HandleShared(d) else d
  }

  function Run(d: State, es: seq<Event>): State
    decreases |es|
  {
    if es == [] then d else Step(Run(d, es[..|es| - 1]), es[|es| - 1])
  }

  /** The component renders nothing while no network has been chosen. */
  predicate Renders(d: State) {
    d.social.Some?
  }

  /** The share button of network b is shown: the component renders, the
      dialog holding the buttons is open, and b's button sits in a ShowIf
      on `social === b`. */
  predicate ShareButtonShown(d: State, b: Social) {
    Renders(d) && d.open && d.social == Some(b)
  }

  // ---------------------------------------------------------------------
  // Properties of single steps

  /** Typing and pasting the same text leave the same state, and both change
      only the name, which becomes the handle of the text. */
  lemma NameEventsAgree(d: State, text: string)
    ensures Step(d, NameTyped(text)) == Step(d, NamePasted(text))
    ensures var d' := Step(d, NameTyped(text));
      && d'.socialName == Extract(text)
      && d'.open == d.open && d'.social == d.social
      && d'.shared == d.shared && d'.calls == d.calls
  {
  }

  /** Only opening the dialog turns `shared` back off; only the share popup turns it on. */
  lemma SharedChanges(d: State, e: Event)
    ensures d.shared && !Step(d, e).shared ==> e.Opened?
    ensures !d.shared && Step(d, e).shared ==> e == ShareWindowClosed
  {
  }

  /** `handleShared` calls verify exactly once, with the current network and
      name, when both are set, and leaves the network, name and `shared` as
      they were in every case. */
  lemma HandleSharedEffect(d: State)
    ensures var d' := HandleShared(d);
      && d'.social == d.social && d'.socialName == d.socialName && d'.shared == d.shared
      && (d.social.Some? && d.socialName != [] ==>
            d'.calls == d.calls + [VerifyCall(d.social.value, d.socialName)] && !d'.open)
      && (d.social.None? || d.socialName == [] ==> d' == d)
  {
  }

  /** A click on the submit button reaches verify if and only if `shared`
      is on, a network is chosen and the name is non-empty. */
  lemma SubmitCallsVerify(d: State)
    ensures Step(d, SubmitClicked).calls != d.calls <==>
      d.shared && d.social.Some? && d.socialName != []
    ensures Step(d, SubmitClicked).calls != d.calls ==>
      Step(d, SubmitClicked).calls == d.calls + [VerifyCall(d.social.value, d.socialName)]
  {
  }

  /** Every event keeps the calls already made and adds at most one, and only
      a submit click adds one. */
  lemma CallsAppendOnly(d: State, e: Event)
    ensures d.calls <= Step(d, e).calls
    ensures |Step(d, e).calls| <= |d.calls| + 1
    ensures Step(d, e).calls != d.calls ==> e == SubmitClicked
  {
  }

  /** While the dialog is open, exactly one share button is shown: the one
      for the chosen network. */
  lemma OneShareButton(d: State, b: Social)
    requires Renders(d) && d.open
    ensures ShareButtonShown(d, b) <==> b == d.social.value
  {
  }

  /** A hidden dialog shows no share button. */
  lemma HiddenDialogShowsNoButton(d: State, b: Social)
    requires !d.open
    ensures !ShareButtonShown(d, b)
  {
  }

  // ---------------------------------------------------------------------
  // Properties of runs

  /** The state every handler keeps: the name holds no '/', and every name
      sent to verify is non-empty and holds no '/'. */
  ghost predicate Valid(d: State) {
    && '/' !in d.socialName
    && forall i :: 0 <= i < |d.calls| ==> d.calls[i].socialName != [] && '/' !in d.calls[i].socialName
  }

  lemma StepKeepsValid(d: State, e: Event)
    requires Valid(d)
    ensures Valid(Step(d, e))
  {
    match e
    case NameTyped(text) => assert Step(d, e).socialName == Extract(text);
    case NamePasted(text) => assert Step(d, e).socialName == Extract(text);
    case _ =>
  }

  lemma {:induction false} RunKeepsValid(d: State, es: seq<Event>)
    requires Valid(d)
    ensures Valid(Run(d, es))
    decreases |es|
  {
    if es != [] {
      RunKeepsValid(d, es[..|es| - 1]);
      StepKeepsValid(Run(d, es[..|es| - 1]), es[|es| - 1]);
    }
  }

  /** From the initial state, whatever events arrive, verify is only ever
      called with a non-empty handle that holds no '/'. */
  lemma VerifiedNamesAreHandles(es: seq<Event>)
    ensures forall i :: 0 <= i < |Run(Initial, es).calls| ==>
      Run(Initial, es).calls[i].socialName != [] && '/' !in Run(Initial, es).calls[i].socialName
  {
    RunKeepsValid(Initial, es);
  }

  /** Event i of es was a submit click made in a state with `shared` on, the
      network of call c chosen and the name of call c entered. */
  ghost predicate SubmittedAt(d: State, es: seq<Event>, i: int, c: VerifyCall)
    requires 0 <= i < |es|
  {
    var pre := Run(d, es[..i]);
    && es[i] == SubmitClicked
    && pre.shared
    && pre.social == Some(c.social)
    && pre.socialName == c.socialName
    && c.socialName != []
  }

  /** Every call to verify made during a run came from a submit click in a
      state where the button was enabled (`shared` on), with the network
      and the non-empty name of that state. */
  lemma {:induction false} CallsComeFromEnabledSubmit(d: State, es: seq<Event>, n: int)
    requires |d.calls| <= n < |Run(d, es).calls|
    ensures exists i :: 0 <= i < |es| && SubmittedAt(d, es, i, Run(d, es).calls[n])
    decreases |es|
  {
    var last := |es| - 1;
    var pre := Run(d, es[..last]);
    assert es[..last][..last] == es[..last];
    CallsAppendOnly(pre, es[last]);
    if n < |pre.calls| {
      CallsComeFromEnabledSubmit(d, es[..last], n);
      var i :| 0 <= i < last && SubmittedAt(d, es[..last], i, pre.calls[n]);
      assert es[..last][..i] == es[..i];
      assert SubmittedAt(d, es, i, Run(d, es).calls[n]);
    } else {
      SubmitCallsVerify(pre);
      assert SubmittedAt(d, es, last, Run(d, es).calls[n]);
    }
  }

  /** Events other than opening leave the chosen network as it is. */
  lemma {:induction false} RunKeepsNetwork(d: State, es: seq<Event>)
    requires forall i :: 0 <= i < |es| ==> !es[i].Opened?
    ensures Run(d, es).social == d.social
    decreases |es|
  {
    if es != [] {
      RunKeepsNetwork(d, es[..|es| - 1]);
    }
  }

  /** After the dialog is opened for p, and until it is opened again, the
      only share button that can be shown is p's, and it is shown right
      after opening. */
  lemma ShareButtonOfOpenedNetwork(d: State, p: Social, es: seq<Event>, b: Social)
    requires forall i :: 0 <= i < |es| ==> !es[i].Opened?
    ensures ShareButtonShown(Step(d, Opened(p)), p)
    ensures ShareButtonShown(Run(Step(d, Opened(p)), es), b) ==> b == p
  {
    RunKeepsNetwork(Step(d, Opened(p)), es);
  }

  /** Once a network has been chosen the component never returns to
      rendering nothing: no handler clears `social`. */
  lemma {:induction false} RendersOnceOpened(d: State, es: seq<Event>)
    requires Renders(d)
    ensures Renders(Run(d, es))
    decreases |es|
  {
    if es != [] {
      RendersOnceOpened(d, es[..|es| - 1]);
    }
  }
}
