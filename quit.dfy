/** ranger's `:quit`, `:quit!`, `:quitall` and `:quitall!`: close the
    current tab while there is more than one, otherwise leave the program,
    unless tasks are still running and the command is not forced. */
module Quit {

  datatype Outcome = CloseTab | Exit | RefuseWhileBusy

  /** `:quit`, given the number of open tabs and whether the loader has
      work in progress. */
  function Quit(tabs: nat, hasWork: bool): (r: Outcome)
    ensures r == CloseTab <==> tabs >= 2
    ensures r == Exit ==> !hasWork
    ensures r == RefuseWhileBusy ==> hasWork
  {
    if tabs >= 2 then CloseTab else if hasWork then RefuseWhileBusy else Exit
  }

  /** `:quit!`: the same choice without the check for running tasks. */
  function QuitBang(tabs: nat): (r: Outcome)
    ensures r != RefuseWhileBusy
    ensures r == CloseTab <==> tabs >= 2
  {
    if tabs >= 2 then CloseTab else Exit
  }

  /** `:quitall`: leaves whatever the number of tabs, unless busy. */
  function QuitAll(hasWork: bool): (r: Outcome)
    ensures r != CloseTab
    ensures r == Exit <==> !hasWork
  {
    if hasWork then RefuseWhileBusy else Exit
  }

  /** `:quit` differs from `:quit!` only by refusing to leave the last tab
      while tasks run; `:quitall` differs from `:quit` only with several
      tabs open. */
  lemma QuitVariantsAgree(tabs: nat, hasWork: bool)
    ensures Quit(tabs, hasWork) != QuitBang(tabs) <==> tabs < 2 && hasWork
    ensures Quit(tabs, hasWork) != QuitBang(tabs) ==> Quit(tabs, hasWork) == RefuseWhileBusy
    ensures tabs < 2 ==> Quit(tabs, hasWork) == QuitAll(hasWork)
  {
  }
}
