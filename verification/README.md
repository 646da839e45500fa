# Social-account linking dialog: a verified model

This project models the dialog a Myriad web-client user goes through to link a
Twitter, Facebook or Reddit account to their Myriad identity
(`src/components/connect/connect.component.tsx`). The dialog's owner opens it
for one network. The user types or pastes their profile URL or bare handle
into a user-name field. They share a message through that network's share
popup, and when the popup closes the dialog treats the share as done. The
submit button (labelled "Verified My Twitter Account" whatever the network)
is enabled only after that. It hands the network and the handle to a
`verify` callback supplied by the owner and closes the dialog.

The model has four modules:

- `Handle` (`handle.dfy`): `lastIndexOf` and the handle extraction
  `text.substring(text.lastIndexOf('/') + 1)`. It is specified as "the longest
  suffix without a '/'" (`IsHandleOf`), and that suffix is proved unique.
- `Socials` (`socials.dfy`): the three networks and the `prefix` table of
  profile-URL prefixes. It also proves that pasting a prefix followed by a
  handle yields the handle.
- `LinkDialog` (`link_dialog.dfy`): the dialog as a state machine on values.
  A `State` holds `open`, `social`, `socialName`, `shared` and the log of
  `verify` calls. `Step` applies one event and `Run` applies a sequence of
  events. The lemmas about single steps and about whole runs live here.
- `Connect` (`connect.dfy`): the component as a class. Its four fields are
  updated in place by one method per handler, and a ghost field records the
  `verify` calls. Each method states its effect on every field. The handlers
  that an event reaches are `OpenConnectForm`, `HandleSocialNameChange`,
  `HandleSocialNamePasted`, `OnShareClosed`, `Close` and the button click
  `ClickSubmit`. Each of them equates the new `Snapshot()` with
  `LinkDialog.Step` applied to the old one. So the run lemmas hold of any
  sequence of calls to those methods.
  `HandleShared` is the button's `onClick` handler (line 184), and it is
  reached only through `ClickSubmit`. It equates the new state with
  `LinkDialog.HandleShared`, which does not test `shared`. A direct call to
  it is not a dialog event, and the run lemmas do not cover it.

Events are accepted in every state, which over-approximates what the UI can
deliver: for example, a keystroke can arrive while the dialog is hidden. So
every run property holds at least for all real interaction sequences. The
exception is the submit button. Its `disabled={!shared}` attribute is
modelled as `SubmitEnabled`, and a click runs `handleShared` only when that
predicate holds.

## Model

| member | source | states |
|---|---|---|
| `Handle.LastIndexOf` | src/components/connect/connect.component.tsx:67 | the result is -1 or an index of the character, and no later index holds the character |
| `Handle.Extract` | src/components/connect/connect.component.tsx:67 | the extracted name is a suffix of the input without any '/', and it is either the whole input or preceded by a '/' |
| `Handle.HandleStart` | src/components/connect/connect.component.tsx:67 | any '/'-free suffix that is whole or preceded by '/' starts right after the last '/' |
| `Handle.HandleOfUnique` | src/components/connect/connect.component.tsx:67 | an input has exactly one such suffix, so the extraction is determined by its specification |
| `Handle.ExtractAfterLastSlash` | src/components/connect/connect.component.tsx:67 | with the last '/' at index k, the name is exactly the text after k |
| `Handle.ExtractWhole` | src/components/connect/connect.component.tsx:67 | input without '/' is kept whole (lastIndexOf gives -1, substring(0) is the input) |
| `Handle.ExtractTrailingSlash` | src/components/connect/connect.component.tsx:67 | input ending in '/' gives the empty name |
| `Handle.ExtractIdempotent` | src/components/connect/connect.component.tsx:65-78 | extracting from an extracted name returns it unchanged |
| `Socials.Prefix` | src/components/connect/connect.component.tsx:35-39 | every network's prefix is an https URL ending in '/' |
| `Socials.ExtractProfileUrl` | src/components/connect/connect.component.tsx:35-39 | pasting prefix followed by a '/'-free handle yields exactly the handle |
| `Socials.ExtractExamples` | src/components/connect/connect.component.tsx:75 | "https://twitter.com/alice" gives "alice", "bob" gives "bob", "https://www.reddit.com/user/" gives "" |
| `LinkDialog.NameEventsAgree` | src/components/connect/connect.component.tsx:65-78 | typing and pasting the same text leave the same state, and both change only the name, to the extracted name |
| `LinkDialog.SharedChanges` | src/components/connect/connect.component.tsx:55-82 | only opening the dialog turns `shared` off, and only the share popup closing turns it on |
| `LinkDialog.HandleSharedEffect` | src/components/connect/connect.component.tsx:84-94 | with a network and a non-empty name, exactly one verify(network, name) call is logged and the dialog closes; otherwise nothing changes; network, name and `shared` are never cleared |
| `LinkDialog.SubmitCallsVerify` | src/components/connect/connect.component.tsx:184 | a button click logs a call if and only if `shared` is on, a network is chosen and the name is non-empty, and the call carries that network and name |
| `LinkDialog.CallsAppendOnly` | src/components/connect/connect.component.tsx:84-90 | every event keeps the logged calls as a prefix and adds at most one; only a submit click adds one |
| `LinkDialog.OneShareButton` | src/components/connect/connect.component.tsx:155-177 | while the dialog is open, the share button of a network is shown if and only if it is the chosen network |
| `LinkDialog.HiddenDialogShowsNoButton` | src/components/connect/connect.component.tsx:100 | while the dialog is closed, no share button is shown |
| `LinkDialog.RunKeepsNetwork` | src/components/connect/connect.component.tsx:55-94 | no event other than opening changes the chosen network, over any sequence of events |
| `LinkDialog.ShareButtonOfOpenedNetwork` | src/components/connect/connect.component.tsx:155-177 | right after opening for p, p's share button is shown, and until the next opening no other network's button is ever shown |
| `LinkDialog.StepKeepsValid` | src/components/connect/connect.component.tsx:65-94 | every event keeps the name '/'-free and every logged name non-empty and '/'-free |
| `LinkDialog.RunKeepsValid` | src/components/connect/connect.component.tsx:65-94 | any sequence of events keeps that invariant |
| `LinkDialog.VerifiedNamesAreHandles` | src/components/connect/connect.component.tsx:84-90 | from the mount state, every name ever passed to verify is non-empty and contains no '/' |
| `LinkDialog.CallsComeFromEnabledSubmit` | src/components/connect/connect.component.tsx:184 | every call logged during a run came from a submit click in a state with `shared` on, with that state's network and non-empty name |
| `LinkDialog.RendersOnceOpened` | src/components/connect/connect.component.tsx:96 | once a network is chosen, no sequence of events brings back the render-nothing state |
| `Connect.ConnectComponent.constructor` | src/components/connect/connect.component.tsx:44-47 | the component mounts closed, with no network, an empty name, `shared` off and no calls, so it renders nothing |
| `Connect.ConnectComponent.OpenConnectForm` | src/components/connect/connect.component.tsx:55-60 | whatever the prior state: open, network p, empty name, `shared` off, no call made, and the component renders |
| `Connect.ConnectComponent.HandleSocialNameChange` | src/components/connect/connect.component.tsx:65-70 | the name becomes the extracted name of the typed text; the other fields and the log are unchanged; a component that renders stays rendering |
| `Connect.ConnectComponent.HandleSocialNamePasted` | src/components/connect/connect.component.tsx:72-78 | the name becomes the extracted name of the pasted text; the other fields and the log are unchanged; a component that renders stays rendering |
| `Connect.ConnectComponent.OnShareClosed` | src/components/connect/connect.component.tsx:80-82 | `shared` turns on and nothing else changes; a component that renders stays rendering |
| `Connect.ConnectComponent.Close` | src/components/connect/connect.component.tsx:92-94 | the dialog is hidden and nothing else changes; a component that renders stays rendering |
| `Connect.ConnectComponent.HandleShared` | src/components/connect/connect.component.tsx:84-90 | with a network and a non-empty name: one verify call with both is logged and the dialog closes; otherwise nothing changes; network, name and `shared` stay as they were; a component that renders stays rendering |
| `Connect.ConnectComponent.ClickSubmit` | src/components/connect/connect.component.tsx:184 | a click reaches verify if and only if `shared` is on, a network is chosen and the name is non-empty; with `shared` off it changes nothing; a component that renders stays rendering |

## Left out

- The `SocialsEnum` type is defined outside the modelled file, and every one of its values is taken to be truthy, as the string-valued title `Link Your {social} Account` suggests. So the guards `social && socialName` (line 85) and `!social` (line 96) are modelled as tests for a chosen network. A numeric enum with a member equal to 0 would instead render nothing for that network and never call `verify` for it.
- The JSX layout, Material-UI components, styles and the dialog texts are presentation only. Only two things from the markup are kept: rendering nothing without a network (line 96), and which share button is shown (lines 155-177).
- The `react-share` buttons and their popups belong to a foreign library. The popup closing is the external event `ShareWindowClosed`, which runs `onShareClosed`.
- The behaviour of the `verify` callback belongs to the dialog's owner. Its invocations are only recorded, in a ghost log.
- The `useImperativeHandle`/`forwardRef` plumbing is not modelled. `openConnectForm` is a plain method.
- The `console.log` in `handleShared` is not modelled.
- The share message built from `publicKey` and `APP_URL` is display data and is not modelled.
- React applies state updates asynchronously and in batches. The model assumes each handler sees the state committed by the previous event, which holds when the component re-renders between events.
- `lastIndexOf` in JavaScript counts UTF-16 code units. The model works on Dafny characters, which changes no result for the '/' search.
- pages/town.tsx and pages/home.tsx are not part of this model. They hold server-side session resolution, health-check redirects and a `Promise.all` fan-out of network fetches, which is I/O orchestration.
- src/components-v2/RightMenuBar/RightMenuBar.tsx is not part of this model. It is a static tab list handed to a component outside these files.
- src/components-v2/Upload/Upload.styles.ts is not part of this model. It holds style constants only.
