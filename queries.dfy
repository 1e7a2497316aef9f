/** The answers the prompt helper gets from its environment and from the
    repository library. Each library query of src/main.rs becomes a field
    whose value is whatever that query returned, so the model decides
    nothing about repositories itself. */
module Queries {

  datatype Option<+T> = None | Some(value: T)

  datatype Result<+T, +E> = Ok(value: T) | Err(error: E)

  /** The repository's structural state, as the library reports it: either
      `Clean` or the operation that is part-way done. */
  datatype RepositoryState =
    | Clean
    | Merge
    | Revert
    | RevertSequence
    | CherryPick
    | CherryPickSequence
    | Bisect
    | Rebase
    | RebaseInteractive
    | RebaseMerge
    | ApplyMailbox
    | ApplyMailboxOrRebase

  /** One entry of the list `statuses(None)` returns. */
  datatype StatusEntry = StatusEntry(path: string)

  /** What asking a branch for its short name returns: an error, a name that
      is not valid UTF-8, or the name. */
  datatype BranchNameAnswer =
    | BranchNameError
    | BranchNameNotText
    | BranchName(name: string)

  /** What peeling a reference to its tag object and asking that tag for its
      name returns: the peel fails, the name is not valid UTF-8, or the name. */
  datatype TagAnswer =
    | PeelError
    | TagNameNotText
    | TagName(name: string)

  /** The reference HEAD resolves to: whether it lives in the branch or the
      tag namespace, and what the branch-name and tag queries would answer. */
  datatype HeadReference = HeadReference(
    isBranch: bool,
    isTag: bool,
    branchName: BranchNameAnswer,
    tag: TagAnswer)

  /** The answers of one opened repository. `None` marks a query that failed. */
  datatype RepoQueries = RepoQueries(
    statuses: Option<seq<StatusEntry>>,
    state: RepositoryState,
    isEmpty: Option<bool>,
    head: Option<HeadReference>)

  /** The two environment variables the program reads; `None` is a variable
      that is unset or whose value is not valid Unicode. */
  datatype Environment = Environment(pwd: Option<string>, home: Option<string>)

  /** Each place where the program aborts instead of printing. */
  datatype Failure =
    | PwdUnset               // env::var("PWD").unwrap(): unset or not Unicode
    | HomeUnset              // env::var("HOME").unwrap(): unset or not Unicode
    | StatusesUnreadable     // repo.statuses(None).unwrap()
    | EmptinessUnknown       // repo.is_empty().unwrap()
    | HeadUnreadable         // repo.head().expect(..)
    | BranchNameUnreadable   // Branch::name().unwrap()
    | BranchNameNotUtf8      // .expect("Branch name not valid UTF-8!")
    | TagPeelFailed          // peel_to_tag().unwrap()
    | TagNameNotUtf8         // .expect("Tag name is not valid UTF-8!")
    | UnexpectedReferenceType // panic! when HEAD is neither branch nor tag

  /** How one run ends: normally, with what it wrote to standard output, or
      in a panic at one of the failure sites (nothing written to stdout). */
  datatype Outcome = Exited(stdout: string) | Panicked(site: Failure)
}
