/**
 The modal part of `BaseLayout`: which modal elements are rendered, and in
 which order, for a given import-model stage. Five of them are gated by an
 exact-match test on the stage, one test each; the other four are always
 rendered.
 */
module Layout {
  import opened Wrappers

  /** The value of the import-model stage atom: one of the five stages the
      layout tests for, or `NoImport`. The layout compares the atom's string
      value with the five stage names, so `NoImport` stands for the idle value
      and for any other value outside those five. */
  datatype ImportModelStage =
    | NoImport
    | SelectingModel
    | ModelSelected
    | ImportingModel
    | EditModelInfo
    | ConfirmCancel

  datatype Modal =
    | LoadingModal
    | SelectingModelModal
    | ImportModelOptionModal
    | ImportingModelModal
    | EditModelInfoModal
    | CancelModelImportModal
    | ChooseWhatToImportModal
    | InstallingExtensionModal
    | HuggingFaceRepoDetailModal

  /** The five modals rendered only at one stage. */
  predicate IsStageGated(m: Modal)
  {
    m.SelectingModelModal? || m.ImportModelOptionModal? || m.ImportingModelModal?
    || m.EditModelInfoModal? || m.CancelModelImportModal?
  }

  /** The modals rendered after the stage-gated ones, whatever the stage. */
  const TrailingModals: seq<Modal> :=
    [ChooseWhatToImportModal, InstallingExtensionModal, HuggingFaceRepoDetailModal]

  /** The modal elements of `BaseLayout`, in document order, written as the
      layout writes them: five independent `stage === ... &&` tests. */
  function RenderedModals(stage: ImportModelStage): (ms: seq<Modal>)
  {
    [LoadingModal]
    + (if stage == SelectingModel then [SelectingModelModal] else [])
    + (if stage == ModelSelected then [ImportModelOptionModal] else [])
    + (if stage == ImportingModel then [ImportingModelModal] else [])
    + (if stage == EditModelInfo then [EditModelInfoModal] else [])
    + (if stage == ConfirmCancel then [CancelModelImportModal] else [])
    + TrailingModals
  }

  /** The single exhaustive match the five tests amount to: the stage-gated
      modal of a stage, if it has one. */
  function StageModal(stage: ImportModelStage): (m: Option<Modal>)
    ensures m.Some? ==> IsStageGated(m.value)
    ensures m.None? <==> stage == NoImport
  {
    match stage
    case NoImport => None
    case SelectingModel => Some(SelectingModelModal)
    case ModelSelected => Some(ImportModelOptionModal)
    case ImportingModel => Some(ImportingModelModal)
    case EditModelInfo => Some(EditModelInfoModal)
    case ConfirmCancel => Some(CancelModelImportModal)
  }

  /** The number of stage-gated modals in a rendered list. */
  function CountGated(ms: seq<Modal>): (n: nat)
  {
    if ms == [] then 0
    else (if IsStageGated(ms[0]) then 1 else 0) + CountGated(ms[1..])
  }

  lemma {:induction false} CountGatedAppend(a: seq<Modal>, b: seq<Modal>)
    ensures CountGated(a + b) == CountGated(a) + CountGated(b)
    decreases |a|
  {
    if a == [] {
      assert a + b == b;
    } else {
      assert (a + b)[0] == a[0];
      assert (a + b)[1..] == a[1..] + b;
      CountGatedAppend(a[1..], b);
    }
  }

  /** The chain of five tests renders exactly what the exhaustive match
      selects, between the loading modal and the three trailing ones. */
  lemma RenderedModalsMatchStageModal(stage: ImportModelStage)
    ensures RenderedModals(stage) == [LoadingModal] + ToSeq(StageModal(stage)) + TrailingModals
  {
  }

  /** Each stage renders its own modal, and only that one of the five. */
  lemma EachStageSelectsItsModal()
    ensures StageModal(SelectingModel) == Some(SelectingModelModal)
    ensures StageModal(ModelSelected) == Some(ImportModelOptionModal)
    ensures StageModal(ImportingModel) == Some(ImportingModelModal)
    ensures StageModal(EditModelInfo) == Some(EditModelInfoModal)
    ensures StageModal(ConfirmCancel) == Some(CancelModelImportModal)
    ensures StageModal(NoImport) == None
  {
  }

  /** A stage-gated modal is rendered exactly when the stage selects it. */
  lemma GatedModalRenderedIffSelected(stage: ImportModelStage, m: Modal)
    requires IsStageGated(m)
    ensures m in RenderedModals(stage) <==> StageModal(stage) == Some(m)
  {
    RenderedModalsMatchStageModal(stage);
    assert m !in [LoadingModal] && m !in TrailingModals;
  }

  /** At most one stage-gated modal is rendered; exactly one unless the stage
      is idle. */
  lemma AtMostOneGatedModal(stage: ImportModelStage)
    ensures CountGated(RenderedModals(stage)) <= 1
    ensures CountGated(RenderedModals(stage)) == 1 <==> stage != NoImport
  {
    RenderedModalsMatchStageModal(stage);
    var gated := ToSeq(StageModal(stage));
    CountGatedAppend([LoadingModal] + gated, TrailingModals);
    CountGatedAppend([LoadingModal], gated);
    assert CountGated([LoadingModal]) == 0 by {
      assert [LoadingModal][1..] == [];
    }
    assert CountGated(TrailingModals) == 0 by {
      assert TrailingModals[1..][1..][1..] == [];
    }
    if stage != NoImport {
      assert gated[1..] == [];
    }
  }

  /** No two stages share a stage-gated modal. */
  lemma StageModalInjective(a: ImportModelStage, b: ImportModelStage)
    requires a != NoImport && StageModal(a) == StageModal(b)
    ensures a == b
  {
  }

  /** The loading modal and the three trailing modals are rendered at every
      stage, first and last respectively. */
  lemma UnconditionalModalsAlwaysRendered(stage: ImportModelStage)
    ensures var ms := RenderedModals(stage);
      && |ms| >= 4 && ms[0] == LoadingModal
      && ms[|ms| - 3..] == [ChooseWhatToImportModal, InstallingExtensionModal, HuggingFaceRepoDetailModal]
  {
    RenderedModalsMatchStageModal(stage);
  }

  /** The part of the layout the modal selection sits in: the main view it
      animates and the modals it renders. */
  datatype Screen<V> = Screen(mainView: V, modals: seq<Modal>)

  function BaseLayout<V>(mainViewState: V, stage: ImportModelStage): (r: Screen<V>)
  {
    Screen(mainViewState, RenderedModals(stage))
  }

  /** Which modals are rendered depends only on the import stage, not on the
      main view state. */
  lemma ModalsIgnoreMainView<V>(v1: V, v2: V, stage: ImportModelStage)
    ensures BaseLayout(v1, stage).modals == BaseLayout(v2, stage).modals
  {
  }
}
