/** The part of a schema validator the form schemas use: every failed check adds an issue
    (the field's path and the message), the checks of a field run in order, and a value is
    accepted when no issue was raised. */
module Schema {
  datatype Issue = Issue(path: string, message: string)

  /** One check: no issue when it passes, its issue otherwise. */
  function Check(ok: bool, path: string, message: string): (issues: seq<Issue>)
    ensures issues == [] <==> ok
    ensures !ok ==> Issue(path, message) in issues
  {
    if ok then [] else [Issue(path, message)]
  }

  /** `.min(n, message)` on a string: at least `n` characters. */
  function MinLength(s: string, n: nat, path: string, message: string): (issues: seq<Issue>)
    ensures issues == [] <==> |s| >= n
  {
    Check(|s| >= n, path, message)
  }
}
