/**
 * The linking dialog component itself: its four pieces of state, updated in
 * place by one method per handler. The `verify` callback belongs to the
 * component's owner; its invocations are recorded in the ghost field
 * `verifyLog`. Every method states its effect on the fields. The handlers
 * an event can reach (OpenConnectForm, HandleSocialNameChange,
 * HandleSocialNamePasted, OnShareClosed, Close and the button click
 * ClickSubmit) tie the new state to LinkDialog.Step, so the run properties
 * proved there apply to any sequence of those calls. HandleShared is the
 * inner handler, reached only through ClickSubmit; on its own it does not
 * test `shared`, and calling it directly is not one of the dialog's events.
 */
module Connect {
  import opened Handle
  import opened Socials
  import opened LinkDialog

  class ConnectComponent {
    var open: bool
    var social: Option<Social>
    var socialName: string
    var shared: bool
    ghost var verifyLog: seq<VerifyCall>

    /** The component's state as a LinkDialog.State value. */
    ghost function Snapshot(): State
      reads this
    {
      State(open, social, socialName, shared, verifyLog)
    }

    /** The component mounts closed, with no network, an empty name, `shared` off and no calls made. */
    constructor ()
      ensures !open && social == None && socialName == [] && !shared && verifyLog == []
      ensures Snapshot() == Initial
      ensures RendersNothing()
    {
      open, social, socialName, shared := false, None, "", false;
      verifyLog := [];
    }

    /** `openConnectForm(p)`, the handle exposed to the owner: whatever the
        prior state, the dialog is open for p with an empty name and `shared` off. */
    method OpenConnectForm(p: Social)
      modifies this
      ensures social == Some(p) && open && !shared && socialName == []
      ensures !RendersNothing()
      ensures verifyLog == old(verifyLog)
      ensures Snapshot() == Step(old(Snapshot()), Opened(p))
    {
      social := Some(p);
      open := true;
      shared := false;
      socialName := "";
    }

    /** The keystroke handler: the name becomes the handle of the field's text. */
    method HandleSocialNameChange(text: string)
      modifies this
      ensures socialName == Extract(text) && '/' !in socialName
      ensures open == old(open) && social == old(social) && shared == old(shared)
      ensures verifyLog == old(verifyLog)
      ensures !old(RendersNothing()) ==> !RendersNothing()
      ensures Snapshot() == Step(old(Snapshot()), NameTyped(text))
    {
      var name := Extract(text);
      socialName := name;
    }

    /** The paste handler: the default paste is suppressed and the name
        becomes the handle of the pasted text. */
    method HandleSocialNamePasted(text: string)
      modifies this
      ensures socialName == Extract(text) && '/' !in socialName
      ensures open == old(open) && social == old(social) && shared == old(shared)
      ensures verifyLog == old(verifyLog)
      ensures !old(RendersNothing()) ==> !RendersNothing()
      ensures Snapshot() == Step(old(Snapshot()), NamePasted(text))
    {
      var name := Extract(text);
      socialName := name;
    }

    /** `onShareClosed`, fired when the share popup closes: `shared` turns on. */
    method OnShareClosed()
      modifies this
      ensures shared
      ensures open == old(open) && social == old(social) && socialName == old(socialName)
      ensures verifyLog == old(verifyLog)
      ensures !old(RendersNothing()) ==> !RendersNothing()
      ensures Snapshot() == Step(old(Snapshot()), ShareWindowClosed)
    {
      shared := true;
    }

    /** `close`, also the dialog's onClose: hides the dialog and nothing else. */
    method Close()
      modifies this
      ensures !open
      ensures social == old(social) && socialName == old(socialName) && shared == old(shared)
      ensures verifyLog == old(verifyLog)
      ensures !old(RendersNothing()) ==> !RendersNothing()
      ensures Snapshot() == Step(old(Snapshot()), DialogClosed)
    {
      open := false;
    }

    /** `handleShared`, the submit button's onClick: with a network chosen
        and a non-empty name, calls verify once with both and closes the
        dialog; otherwise changes nothing. The network, the name and `shared`
        are never cleared. It does not test `shared` itself: the button's
        `disabled` attribute does, in ClickSubmit. */
    method HandleShared()
      modifies this
      ensures social == old(social) && socialName == old(socialName) && shared == old(shared)
      ensures old(social.Some? && socialName != []) ==>
        !open && verifyLog == old(verifyLog) + [VerifyCall(old(social).value, old(socialName))]
      ensures !old(social.Some? && socialName != []) ==>
        open == old(open) && verifyLog == old(verifyLog)
      ensures !old(RendersNothing()) ==> !RendersNothing()
      ensures Snapshot() == LinkDialog.HandleShared(old(Snapshot()))
    {
      if social.Some? && socialName != [] {
        verifyLog := verifyLog + [VerifyCall(social.value, socialName)];
        Close();
      }
    }

    /** A click on the submit button, which is disabled while `shared` is
        off: verify is reached only when `shared` is on. */
    method ClickSubmit()
      modifies this
      ensures verifyLog != old(verifyLog) <==> old(shared && social.Some? && socialName != [])
      ensures !old(shared) ==> Snapshot() == old(Snapshot())
      ensures !old(RendersNothing()) ==> !RendersNothing()
      ensures Snapshot() == Step(old(Snapshot()), SubmitClicked)
    {
      if shared {
        HandleShared();
      }
    }

    /** The component renders nothing while no network is chosen. Opening
        the dialog ends this, and no handler brings it back. */
    predicate RendersNothing()
      reads this
    {
      social == None
    }
  }
}
