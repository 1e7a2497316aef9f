/** The `match repo.state()` of `main`: `Clean` asks for the ref name, every
    other structural state is shown as a fixed label. */
module StateLabels {
  import opened Queries

  /** Where the label of a state comes from. */
  datatype LabelSource = FromRefName | Fixed(text: string)

  /** The operations a repository can be part-way through, one per distinct
      label the program prints. */
  datatype Operation =
    | Merging
    | Reverting
    | CherryPicking
    | Bisecting
    | Rebasing
    | RebaseMerging
    | ApplyingMailbox
    | ApplyingMailboxOrRebase

  /** The operation a state belongs to; `Clean` belongs to none. A sequenced
      revert or cherry-pick is still a revert or cherry-pick, and an
      interactive rebase is still a rebase. */
  function OperationOf(s: RepositoryState): (r: Option<Operation>)
    ensures r.None? <==> s == Clean
  {
    match s
    case Clean => None
    case Merge => Some(Merging)
    case Revert | RevertSequence => Some(Reverting)
    case CherryPick | CherryPickSequence => Some(CherryPicking)
    case Bisect => Some(Bisecting)
    case Rebase | RebaseInteractive => Some(Rebasing)
    case RebaseMerge => Some(RebaseMerging)
    case ApplyMailbox => Some(ApplyingMailbox)
    case ApplyMailboxOrRebase => Some(ApplyingMailboxOrRebase)
  }

  /** The text printed for an operation. */
  function OperationName(o: Operation): (r: string)
    ensures r != ""
  {
    match o
    case Merging => "merging"
    case Reverting => "reverting"
    case CherryPicking => "cherry-picking"
    case Bisecting => "bisecting"
    case Rebasing => "rebasing"
    case RebaseMerging => "rebase-merge"
    case ApplyingMailbox => "apply-mailbox"
    case ApplyingMailboxOrRebase => "apply-mailbox-or-rebase"
  }

  /** The label source of each state, as the match in `main` writes it. */
  function StateLabel(s: RepositoryState): (r: LabelSource)
    ensures r.FromRefName? <==> s == Clean
    ensures r.Fixed? ==> r.text != ""
  {
    match s
    case Clean => FromRefName
    case Merge => Fixed("merging")
    case Revert => Fixed("reverting")
    case RevertSequence => Fixed("reverting")
    case CherryPick => Fixed("cherry-picking")
    case CherryPickSequence => Fixed("cherry-picking")
    case Bisect => Fixed("bisecting")
    case Rebase => Fixed("rebasing")
    case RebaseInteractive => Fixed("rebasing")
    case RebaseMerge => Fixed("rebase-merge")
    case ApplyMailbox => Fixed("apply-mailbox")
    case ApplyMailboxOrRebase => Fixed("apply-mailbox-or-rebase")
  }

  /** Different operations print different names. */
  lemma OperationNamesDistinct(o1: Operation, o2: Operation)
    ensures OperationName(o1) == OperationName(o2) <==> o1 == o2
  {
  }

  /** Every non-`Clean` state is labelled with the name of its operation. */
  lemma StateLabelNamesOperation(s: RepositoryState)
    requires s != Clean
    ensures StateLabel(s) == Fixed(OperationName(OperationOf(s).value))
  {
  }

  /** Two states get the same label exactly when they belong to the same
      operation (or are both `Clean`): the only collapses are the sequenced
      revert and cherry-pick and the interactive rebase. */
  lemma SameLabelIffSameOperation(s1: RepositoryState, s2: RepositoryState)
    ensures StateLabel(s1) == StateLabel(s2) <==> OperationOf(s1) == OperationOf(s2)
  {
    if s1 != Clean && s2 != Clean {
      StateLabelNamesOperation(s1);
      StateLabelNamesOperation(s2);
      OperationNamesDistinct(OperationOf(s1).value, OperationOf(s2).value);
    }
  }

  /** The state mapping is many-to-one exactly as written. */
  lemma ManyToOne()
    ensures StateLabel(Revert) == StateLabel(RevertSequence) == Fixed("reverting")
    ensures StateLabel(CherryPick) == StateLabel(CherryPickSequence) == Fixed("cherry-picking")
    ensures StateLabel(Rebase) == StateLabel(RebaseInteractive) == Fixed("rebasing")
    ensures StateLabel(RebaseMerge) == Fixed("rebase-merge") != StateLabel(Rebase)
    ensures StateLabel(Merge) == Fixed("merging")
    ensures StateLabel(Bisect) == Fixed("bisecting")
    ensures StateLabel(ApplyMailbox) == Fixed("apply-mailbox")
    ensures StateLabel(ApplyMailboxOrRebase) == Fixed("apply-mailbox-or-rebase")
  {
  }
}
