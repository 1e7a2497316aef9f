# git-prompt-helper, modelled in Dafny

git-prompt-helper prints a short fragment for a zsh prompt. It opens the
repository that encloses `$PWD`, using `$HOME` as the search ceiling. It then
prints `[label!] ` in yellow and red, where `label` is one of three things:

- the name of the operation in progress (merging, rebasing, …);
- `empty` for a repository with no commits;
- the branch or tag HEAD is on.

The `!` is printed when the status list is non-empty. Outside a repository it
prints nothing.

This project models `src/main.rs` as pure functions over datatypes:

- `queries.dfy` (module `Queries`) holds the answers of the environment and
  of the repository library as plain values. A failed query is `None`, or an
  error constructor. The answers include the statuses, the state, emptiness,
  HEAD, the branch's name and the peeled tag's name. It also holds the
  outcome of a run: the text written to stdout, or the panic site reached.
- `labels.dfy` (module `StateLabels`) is the `match repo.state()` in `main`.
  `OperationOf` is a separate reference grouping of the states, and the
  lemmas tie the label table to it.
- `refname.dfy` (module `RefNames`) is `get_ref_name`: empty repository,
  then branch, then tag, then the panic.
- `prompt.dfy` (module `Prompt`) holds the dirty marker, the `print!`
  template and `Run`, the whole of `main`. Opening the repository is a
  function parameter from (`PWD`, `HOME`) to the repository's answers.
  `ParsePrompt` is the inverse of the template. It shows that a printed
  prompt determines its label and its dirty flag.

## Behaviour worth noting

- A detached HEAD (neither branch nor tag) panics (src/main.rs:25-27).
  It is modelled as `Panicked(UnexpectedReferenceType)`.
- An unreadable HEAD, a failed tag peel and a name that is not UTF-8 also
  panic, each at its own site (src/main.rs:10-23).
- The dirty marker is computed and printed in every structural state, not
  only in `Clean` (src/main.rs:40-43, 65-68).
- The status list is read before the state is looked at. A failing status
  query therefore panics in every state.
- An interactive rebase prints `rebasing`, the same label as a plain
  rebase. `RebaseMerge`, `RevertSequence` and `CherryPickSequence` are
  separate library states. The first gets its own label; the other two
  share the labels of revert and cherry-pick.
- A `PWD` or `HOME` that is unset or not valid Unicode panics instead of
  exiting normally (src/main.rs:32, 34).

## Model

| member | source | states |
|---|---|---|
| `RefNames.GetRefName` | src/main.rs:5-28 | a ref name is produced only as "empty" for an empty repository, as the branch's short name when HEAD is a branch, or as the peeled tag's name when HEAD is a tag and not a branch |
| `RefNames.EmptyRepositoryIgnoresHead` | src/main.rs:6-8 | an empty repository gives "empty", and the result does not depend on HEAD at all |
| `RefNames.BranchTakesPrecedence` | src/main.rs:12-17 | when HEAD is a branch, the result is its name (or that query's failure), whatever the tag flag and tag answers are |
| `RefNames.TagWhenNotBranch` | src/main.rs:18-24 | a tag that is not a branch gives the peeled tag's name, a peel failure or a non-UTF-8 failure, whatever the branch-name answer is |
| `RefNames.AnonymousHeadFails` | src/main.rs:25-27 | a HEAD that is neither branch nor tag (detached) gives the unexpected-reference failure, never a label |
| `RefNames.RefNameSucceedsExactly` | src/main.rs:5-28 | a ref name is available if and only if the repository is empty, or HEAD is a readable branch with a valid name, or a non-branch tag that peels to a validly named tag |
| `RefNames.RefNameFailureSites` | src/main.rs:6-21 | a failed emptiness query, an unreadable HEAD and a failed tag peel are each reported at their own site, the peel failure exactly when HEAD is a non-branch tag whose peel fails |
| `StateLabels.OperationOf` | src/main.rs:47-63 | only `Clean` belongs to no operation |
| `StateLabels.StateLabel` | src/main.rs:47-63 | only `Clean` asks for the ref name; every other state has a non-empty fixed label |
| `StateLabels.OperationName` | src/main.rs:52-62 | every printed operation name is non-empty |
| `StateLabels.OperationNamesDistinct` | src/main.rs:52-62 | the printed operation names are pairwise different |
| `StateLabels.StateLabelNamesOperation` | src/main.rs:52-62 | each non-`Clean` state is labelled with the name of the operation it belongs to |
| `StateLabels.SameLabelIffSameOperation` | src/main.rs:52-62 | two states share a label if and only if they belong to the same operation, so the only collapses are revert/sequenced revert, cherry-pick/sequenced cherry-pick and rebase/interactive rebase |
| `StateLabels.ManyToOne` | src/main.rs:52-62 | the exact labels: reverting, cherry-picking, rebasing (each for two states), rebase-merge (different from rebasing), merging, bisecting, apply-mailbox, apply-mailbox-or-rebase |
| `Prompt.CleanIndicator` | src/main.rs:40-43 | the marker is "!" if and only if the status list is non-empty, and "" if and only if it is empty |
| `Prompt.BranchInfo` | src/main.rs:45-63 | outside `Clean` the label is the operation's fixed name and never fails; in `Clean` it is the ref name or its failure |
| `Prompt.OperationIgnoresRefQueries` | src/main.rs:47-62 | in every non-`Clean` state the emptiness and HEAD answers are never consulted: changing them changes nothing, and no ref-name failure can occur |
| `Prompt.Render` | src/main.rs:65-68 | the printed text begins with "[" and the yellow escape, holds the label right after it, ends with "] ", and is 13 characters longer than the lead, label and marker together |
| `Prompt.Tail` | src/main.rs:65-68 | the part after the label is 14 characters with the "!" marker and 13 without |
| `Prompt.RenderSplits` | src/main.rs:65-68 | the printed text is "[" and the yellow escape, the label, then the colour reset, the red escape, the marker, the reset and "] " |
| `Prompt.ParsePrompt` | src/main.rs:65-68 | whatever it decodes re-renders to exactly the text it was given |
| `Prompt.ParseRender` | src/main.rs:65-68 | decoding a rendered prompt gives back its label and whether the status list was non-empty (the template is injective) |
| `Prompt.NotInRepositoryPrintsNothing` | src/main.rs:31-38 | when the repository cannot be opened the run ends normally and prints the empty string, with no brackets |
| `Prompt.DirtyMarkerInEveryState` | src/main.rs:40-68 | mid-operation the output is the fixed label followed by the dirty marker of the status list |
| `Prompt.Run` | src/main.rs:30-69 | every run panics on a missing PWD, then on a missing HOME. A failed open prints "". Otherwise it panics on unreadable statuses, then on a label failure, or else prints the lead, the label and the tail for the dirty marker |
| `Prompt.PrintedPromptShape` | src/main.rs:65-68 | every non-empty output begins with "[" and the yellow escape, ends with "] ", and decodes to the state's label and to a dirty flag set exactly when the status list is non-empty |
| `Prompt.BranchNamedLikeAnOperation` | src/main.rs:47-62 | for every operation, a clean repository on a branch named after it gets the same label as a repository in the middle of that operation, so the label alone does not reveal the structural state |

## Left out

- The repository library itself. This covers opening with a ceiling, the
  status list, the state, emptiness, HEAD, branch and tag namespaces,
  `Branch::name` and `peel_to_tag`. Their answers are inputs; which
  repository they describe is not modelled.
- How the library shortens a branch's full reference name. The short name
  is taken as the library gives it.
- Status entries are reduced to a path. Only whether the list is empty
  matters to the program.
- Reading `PWD` and `HOME` is two optional input strings. A variable that
  is unset or not valid Unicode is `None`, and leads to the panic the code
  raises.
- Writing to stdout is modelled as the `stdout` text of `Exited`. A panic's
  message on stderr and its exit status are not modelled.
- zsh colour escapes are kept as opaque text (`%F{yellow}`, `%F{red}`,
  `%f`). What they render as is not modelled.
- UTF-8 decoding of names. A name that is not UTF-8 is one answer value
  that leads to its panic site.
