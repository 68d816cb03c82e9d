/** ranger's `:delete` command: whether the deletion of the chosen files is
    first put to the user as a y/N question. */
module Delete {
  import opened Optional

  datatype Plan = AskFirst | DeleteNow

  /** The test on the `confirm_on_delete` setting. Its documented values are
      "always", "multiple" and "never"; any other value acts as "always". */
  function ConfirmPlan(confirm: string, manyFiles: bool): (p: Plan)
    ensures confirm == "never" ==> p == DeleteNow
    ensures confirm == "multiple" ==> (p == AskFirst <==> manyFiles)
    ensures confirm != "never" && confirm != "multiple" ==> p == AskFirst
  {
    if confirm != "never" && (confirm != "multiple" || manyFiles) then AskFirst else DeleteNow
  }

  /** `many_files` when the files are given as arguments: more than one
      file, or a single one that is a directory with entries. Reading
      `files[0]` of an empty list raises, which is the `None` result. */
  function ManyFromArguments(files: seq<string>, nonEmptyDir: string -> bool): (r: Option<bool>)
    ensures r.None? <==> files == []
    ensures r == Some(true) <==> |files| > 1 || (|files| == 1 && nonEmptyDir(files[0]))
  {
    if |files| > 1 then Some(true)
    else if files == [] then None
    else Some(nonEmptyDir(files[0]))
  }

  /** `many_files` when the selection is deleted: some file is marked, or
      the current file is a directory with entries. */
  function ManyFromSelection(markedCount: nat, currentIsNonEmptyDir: bool): (r: bool)
  {
    markedCount > 0 || currentIsNonEmptyDir
  }

  /** The choices the question offers. */
  const Choices: seq<string> := ["n", "N", "y", "Y"]

  /** The answer to the question that lets the deletion go ahead. */
  predicate Confirms(answer: string)
  {
    answer == "y" || answer == "Y"
  }

  /** Asking is monotone in the number of files: a setting that asks for
      a single plain file also asks for many. */
  lemma MoreFilesStillAsk(confirm: string)
    ensures ConfirmPlan(confirm, false) == AskFirst ==> ConfirmPlan(confirm, true) == AskFirst
  {
  }

  /** Arguments named on the command line are deleted without a question
      only under "never", or under "multiple" for one file that is not a
      directory with entries. */
  lemma UnaskedArgumentDeletion(confirm: string, files: seq<string>, nonEmptyDir: string -> bool)
    requires ManyFromArguments(files, nonEmptyDir).Some?
    requires ConfirmPlan(confirm, ManyFromArguments(files, nonEmptyDir).value) == DeleteNow
    ensures confirm == "never" || (confirm == "multiple" && |files| == 1 && !nonEmptyDir(files[0]))
  {
  }

  /** The selection is deleted without a question exactly under "never", or
      under "multiple" when no file is marked and the current file is not a
      directory with entries. A single marked file already counts as many. */
  lemma UnaskedSelectionDeletion(confirm: string, markedCount: nat, currentIsNonEmptyDir: bool)
    ensures ConfirmPlan(confirm, ManyFromSelection(markedCount, currentIsNonEmptyDir)) == DeleteNow
      <==> confirm == "never" || (confirm == "multiple" && markedCount == 0 && !currentIsNonEmptyDir)
  {
  }

  /** Of the four choices offered, exactly "y" and "Y" confirm. */
  lemma OfferedChoices()
    ensures forall i :: 0 <= i < |Choices| ==> (Confirms(Choices[i]) <==> i >= 2)
  {
  }

  /** Whether the files end up deleted: at once, or after the question when
      the answer confirms. */
  predicate Deletes(confirm: string, manyFiles: bool, answer: string)
  {
    match ConfirmPlan(confirm, manyFiles)
    case DeleteNow => true
    case AskFirst => Confirms(answer)
  }

  /** When the setting asks, the files are deleted only on a y or Y answer;
      under "never" they are deleted whatever the answer. */
  lemma DeletionNeedsYes(confirm: string, manyFiles: bool, answer: string)
    ensures confirm != "never" && (confirm != "multiple" || manyFiles) ==>
              (Deletes(confirm, manyFiles, answer) <==> answer == "y" || answer == "Y")
    ensures confirm == "never" ==> Deletes(confirm, manyFiles, answer)
  {
  }
}
