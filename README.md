# Conversation deletion and import-modal dispatch

This project is a Dafny model of two pieces of a desktop chat application's web front end:

- **`deleteConvo`** (`web/app/_hooks/useDeleteConversation.ts`) deletes the active conversation. If the hook's active-conversation id is truthy, it awaits the plugin service's `DELETE_CONVERSATION` call. Only when that call resolves does it update six stores, one setter after another:
  - it filters the conversation list by id;
  - it drops that conversation's entry from the message map;
  - it clears the active id;
  - it empties the prompt;
  - it hides the product-detail and advanced-prompt panels.

  A rejected call is only logged.
- **The modal dispatch of `BaseLayout`** (`web/containers/Layout/index.tsx`) renders a loading modal, then at most one of five modals chosen by exact-match tests on the import-model stage, then three modals that are always present.

Module `DeleteConversation` has these parts:
- The class `AppStores` holds the six atoms as fields.
- Its method `DeleteConvo` takes two inputs:
  - the values the hook captured at render (a `Hook`);
  - the gateway's outcome (`Resolved` or `Rejected(error)`).
- A ghost `trace` records the gateway call, each setter call and the console error, in order.
- The pure function `AfterDelete` specifies the new stores and `Effects` the ordered calls. The method's postconditions tie it to both.
- `Consistent` is pointer validity (a set active id names a listed conversation) plus no orphaned messages (every message-map key is a listed id).

Module `Layout` has two ways to write the dispatch:
- `RenderedModals` writes it the way the layout does: five independent equality tests.
- `StageModal` writes it as one exhaustive match.
- A lemma proves the two agree.

One behaviour of the code as written deserves notice. Line 32 filters the list that the hook read when it rendered (lines 17-19), not the list current when the gateway answers. This has two effects:
- After a resolved delete, the stores are consistent exactly when every cached conversation other than the deleted one is in the captured list (`ResolvedConsistentIff`). So consistency is always kept when the captured list is still the current one, whatever the captured active id (`DeletePreservesConsistency`). A conversation added after the render that already has cached messages is dropped, and its messages are orphaned (`StaleListOrphansMessages`).
- A conversation removed from the store after the render is back in the list after the delete (`StaleListRestoresRemovedConversation`).

## Model

| member | source | states |
|---|---|---|
| DeleteConversation.RemoveById | web/app/_hooks/useDeleteConversation.ts:31-33 | the filtered list holds a conversation exactly when the old list did and its id differs from the deleted id; it is never longer |
| DeleteConversation.RemoveByIdIsSubsequence | web/app/_hooks/useDeleteConversation.ts:32 | the remaining conversations keep their relative order (the result is a subsequence of the old list) |
| DeleteConversation.RemoveByIdCounts | web/app/_hooks/useDeleteConversation.ts:32 | every entry with the deleted id is removed; every other entry is kept as many times as it occurred |
| DeleteConversation.RemoveByIdAppend | web/app/_hooks/useDeleteConversation.ts:32 | filtering a concatenation is the concatenation of the filtered parts |
| DeleteConversation.RemoveByIdAbsent | web/app/_hooks/useDeleteConversation.ts:32 | a list without the id is returned unchanged |
| DeleteConversation.RemoveByIdIdempotent | web/app/_hooks/useDeleteConversation.ts:32 | filtering twice by the same id equals filtering once |
| DeleteConversation.IdsAfterRemove | web/app/_hooks/useDeleteConversation.ts:31-33 | the ids left are exactly the old ids minus the deleted one |
| DeleteConversation.DeleteConversationMessages | web/app/_hooks/useDeleteConversation.ts:34 | the message map loses exactly the deleted id's key; every other entry keeps its messages |
| DeleteConversation.IsTruthy | web/app/_hooks/useDeleteConversation.ts:28 | the guard of line 28: an id is truthy when it is defined and not the empty string |
| DeleteConversation.AfterDelete | web/app/_hooks/useDeleteConversation.ts:27-43 | the six stores after the action: unchanged for a falsy id or a rejection; otherwise the captured list filtered, the id's messages dropped, no active id, an empty prompt and both panels hidden. The lemmas below prove its properties |
| DeleteConversation.Effects | web/app/_hooks/useDeleteConversation.ts:28-41 | the calls the action makes, in order: none for a falsy id; otherwise the gateway delete, then either the six setter calls or the console error (setters that throw are not modelled; see "Left out"). `GatewayCalledOnceFirst` proves its properties |
| DeleteConversation.NoTargetIsNoOp | web/app/_hooks/useDeleteConversation.ts:28 | with an undefined or empty active id, no store changes and no call is made |
| DeleteConversation.GatewayCalledOnceFirst | web/app/_hooks/useDeleteConversation.ts:28-38 | with a truthy id, the gateway delete with that id is the first effect and happens once; some store is written if and only if the call resolved |
| DeleteConversation.FailureChangesNothing | web/app/_hooks/useDeleteConversation.ts:29-41 | a rejected call leaves all six stores as they were and logs the error, with no store write |
| DeleteConversation.SuccessPostState | web/app/_hooks/useDeleteConversation.ts:30-38 | after a resolved call: the id is gone from the list (other ids kept, order kept) and from the message map (other entries unchanged); the active id is undefined, so the pointer is valid; the prompt is ""; both panels are hidden |
| DeleteConversation.DeletePreservesConsistency | web/app/_hooks/useDeleteConversation.ts:17-38 | when the captured list is the current list, pointer validity and no orphaned messages hold after the delete, whatever the gateway answers and whether or not the captured active id is current |
| DeleteConversation.ResolvedConsistentIff | web/app/_hooks/useDeleteConversation.ts:17-35 | after a resolved delete, the stores are consistent if and only if every cached key other than the deleted id is in the captured list |
| DeleteConversation.StaleListOrphansMessages | web/app/_hooks/useDeleteConversation.ts:17-33 | the filter uses the list captured at render; a conversation added afterwards is dropped and its messages become orphaned |
| DeleteConversation.StaleListRestoresRemovedConversation | web/app/_hooks/useDeleteConversation.ts:17-33 | the filter uses the list captured at render; a conversation removed from the store after the render is back in the list after a resolved delete |
| DeleteConversation.DeleteActiveOfTwo | web/app/_hooks/useDeleteConversation.ts:27-38 | list c1, c2 with c1 active and a resolved call gives list c2, no c1 messages, no active id, empty prompt and hidden panels |
| DeleteConversation.AppStores.DeleteConvo | web/app/_hooks/useDeleteConversation.ts:27-43 | the new stores equal `AfterDelete` of the old ones, and the trace gains exactly `Effects`. A falsy id or a rejection changes no store. A resolution sets each of the six stores as the code does. Consistency is kept when the captured list is the current list, and after a resolution it holds exactly when every other cached key is in the captured list |
| Layout.RenderedModals | web/containers/Layout/index.tsx:81-89 | the modals as the layout renders them: LoadingModal, then five independent exact-match tests on the stage, then the three trailing modals. The lemmas below prove its properties |
| Layout.StageModal | web/containers/Layout/index.tsx:82-86 | a stage selects a stage-gated modal, and selects none exactly when it is the idle stage |
| Layout.RenderedModalsMatchStageModal | web/containers/Layout/index.tsx:81-89 | the five independent tests render exactly the loading modal, then the match's selection, then the three trailing modals |
| Layout.EachStageSelectsItsModal | web/containers/Layout/index.tsx:82-86 | SELECTING_MODEL selects SelectingModelModal; MODEL_SELECTED selects ImportModelOptionModal; IMPORTING_MODEL selects ImportingModelModal; EDIT_MODEL_INFO selects EditModelInfoModal; CONFIRM_CANCEL selects CancelModelImportModal; the idle stage selects none |
| Layout.GatedModalRenderedIffSelected | web/containers/Layout/index.tsx:82-86 | a stage-gated modal is rendered if and only if the stage selects it |
| Layout.AtMostOneGatedModal | web/containers/Layout/index.tsx:82-86 | at most one stage-gated modal is rendered, and exactly one unless the stage is idle |
| Layout.StageModalInjective | web/containers/Layout/index.tsx:82-86 | two non-idle stages never share a modal |
| Layout.UnconditionalModalsAlwaysRendered | web/containers/Layout/index.tsx:81-89 | LoadingModal comes first at every stage; ChooseWhatToImportModal, InstallingExtensionModal and HuggingFaceRepoDetailModal come last at every stage |
| Layout.BaseLayout | web/containers/Layout/index.tsx:39-94 | the layout as a main view and a modal list; the modal list is `RenderedModals` of the stage alone |
| Layout.ModalsIgnoreMainView | web/containers/Layout/index.tsx:40-89 | the rendered modals depend only on the import stage, not on the main view state |

## Left out

- The plugin service transport (`execute`, line 30 of the hook) is not modelled. It becomes the `GatewayOutcome` parameter. Its error value is opaque.
- `console.error` (line 40) is not modelled as I/O. It is a `ConsoleError` entry in the ghost trace.
- The atoms are plain fields. Jotai's subscription, notification and batching are not modelled. Whether subscribers can see a state between two setter calls is decided by the library, so the model claims no atomicity.
- The filter and the six setter calls are assumed to return normally. The `catch` on lines 39-41 of the hook would also catch a throw from lines 31-38, after the earlier setters had already written their stores. For example, a throw from `deleteMessages` would leave the active id naming a conversation no longer in the list. This partial update is not modelled, so `AfterDelete`, `Effects` and `DeletePreservesConsistency` cover only the resolved and rejected outcomes of the gateway call.
- The bodies of `deleteConversationMessage`, `setActiveConvoIdAtom` and the other atoms are not part of this model. Line 34 is modelled as removing the id's key and nothing more; line 35 as setting the id to undefined.
- The fields of a conversation other than `id` are one opaque `summary`. The content of chat messages is opaque too.
- The import-stage transitions are not modelled: they live in `useImportModel`, which is not part of this model. Only the dispatch is modelled. The stage's string values become six datatype constructors, and the idle one is `NoImport`.
- The model does not include a re-entrancy guard for concurrent deletes or suppression of stale import results. The code has neither.
- Theme synchronisation and the `localStorage` start-up effect of the layout (lines 44-52) are not modelled. They are browser and library I/O.
- The framer-motion animation and styling of the layout (lines 57-79) are rendering only.
- The top panel (`web/containers/Layout/TopPanel/index.tsx`) is not modelled. It holds panel toggle buttons and a theme switch that calls the Electron API.
