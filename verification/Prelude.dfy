/** Values shared by every part of the model. */
module Prelude {

  datatype Option<+T> = None | Some(value: T)

  /** One line of `git worktree list`, as the server reads it. */
  datatype Worktree = Worktree(
    path: string,
    branch: string,
    commitHash: string,
    isMain: bool,
    isLocked: bool,
    isDetached: bool,
    isBare: bool,
    isPrunable: bool,
    isAvailable: bool)

  function Max(a: int, b: int): int {
    if a < b then b else a
  }

  function Min(a: int, b: int): int {
    if a < b then a else b
  }
}
