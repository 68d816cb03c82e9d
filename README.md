# ranger command plugins: the `open_with` argument classifier

This project models, in Dafny, the decision logic of a set of command
plugins for the ranger file manager (`ConfigFiles/ranger/commands.py`).

The centre is `open_with._get_app_flags_mode`. It takes the rest of an
`:open_with` command line, cuts it into whitespace-separated tokens, and
sorts at most the first three of them into a triple
`(app, flags, mode)`:

- an application name is a token that is neither made only of allowed
  launch-flag characters nor `str.isdigit()`;
- a flags string is made only of allowed launch-flag characters;
- a mode is made only of the ASCII digits `0`..`9`, and is turned into an
  integer at the end.

The first token's category decides which categories the later tokens may
still take. The chain stops at the first token that fits none of them.

Beside it, three small rules of the same file are modelled:

- when `:delete` asks for a y/N confirmation;
- how `:default_linemode` reads an optional `path=` / `tag=` first argument;
- what `:quit`, `:quit!` and `:quitall` do, given the number of tabs and
  whether tasks are running.

Modules:

- `StrSplit`: Python's argument-less `str.split()`, with CPython's
  whitespace characters.
- `DecimalInt`: `int()` of an ASCII digit string, with the decimal spelling
  of a number as its inverse.
- `Optional`: the `Option` datatype.
- `OpenWith`: the classifier.
  - `SortTokens` is the source's decision tree, branch for branch.
  - `GetAppFlagsMode` is the whole method.
  - `Chain` is an independent reading of the same rules: each token takes
    the first still-open category, in the order app, flags, mode, that it
    fits; only the first token may take app; the chain stops at the first
    misfit. `SortTokensIsChain` proves the two agree on every token list.
- `Delete`, `DefaultLinemode`, `Quit`: the three small rules.

Two parts of the host are parameters:

- `allowed`: the host's `ALLOWED_FLAGS`, whose value is not part of this
  model.
- `digits`: the characters Python's `str.isdigit()` accepts. It is fixed on
  ASCII (exactly `0`..`9`) and left open above it. So a token such as `٣`
  (an Arabic-Indic digit) is, for a typical `digits`, neither an application
  name nor a mode, and it is dropped.

Where the documentation and the code disagree, the model follows the code:

- The `delete` docstring asks for confirmation when deleting "multiple
  marked files". The code counts one marked file as many: with
  `confirm_on_delete` set to "multiple", deleting a single marked plain file
  is asked for (`UnaskedSelectionDeletion`).
- The method's docstring says `"" => None`. The code returns
  `("", "", 0)` for an empty or all-whitespace argument (`BlankGivesDefault`).
- With three or more tokens, a first token that fits nothing might be
  expected to let classification restart at the second token. The code has
  no such branch: the result is `("", "", 0)` whatever follows
  (`FirstMisfitGivesDefault`, `StopsAtFirstMisfit`).

## Model

| member | source | states |
|---|---|---|
| `StrSplit.Split` | ConfigFiles/ranger/commands.py:56 | every token `string.split()` yields is non-empty and contains no whitespace |
| `StrSplit.SplitAppend` | ConfigFiles/ranger/commands.py:56 | splitting around a whitespace character gives the left part's tokens followed by the right part's |
| `StrSplit.SplitJoin` | ConfigFiles/ranger/commands.py:56 | splitting words joined by blanks gives back exactly those words |
| `StrSplit.SplitWord` | ConfigFiles/ranger/commands.py:56 | a single whitespace-free non-empty word splits to itself |
| `StrSplit.SplitEmpty` | ConfigFiles/ranger/commands.py:56 | no token at all exactly when the argument is empty or all whitespace |
| `StrSplit.SplitKeepsText` | ConfigFiles/ranger/commands.py:56 | the tokens laid end to end are the argument with its whitespace removed |
| `DecimalInt.DecimalValue` | ConfigFiles/ranger/commands.py:110 | `int(mode)` of a digit string with k digits is below 10^k; the unset mode reads as 0 |
| `DecimalInt.Decimal` | ConfigFiles/ranger/commands.py:110 | the canonical spelling of a number is a non-empty digit string without a leading zero |
| `DecimalInt.DecimalRoundTrip` | ConfigFiles/ranger/commands.py:110 | reading back the spelling of n gives n |
| `DecimalInt.ValueRoundTrip` | ConfigFiles/ranger/commands.py:110 | spelling the value of a canonical digit string gives that string back |
| `DecimalInt.LeadingZeroIgnored` | ConfigFiles/ranger/commands.py:110 | a leading zero does not change the mode's value |
| `StrSplit.AsciiSpaces` | ConfigFiles/ranger/commands.py:56 | `IsSpace`, the separators of `split()`, is among ASCII exactly tab, line feed, vertical tab, form feed, carriage return, 0x1C-0x1F and space (above ASCII it adds 0x85, 0xA0 and the Unicode spaces and line/paragraph separators) |
| `OpenWith.FlagsAreAllowedChars` | ConfigFiles/ranger/commands.py:115-118 | `IsFlags`: a token is flags iff the set of its characters is a subset of the host's allowed flags (the empty token included) |
| `OpenWith.ModeIsDigitLiteral` | ConfigFiles/ranger/commands.py:120-122 | `IsMode`: a token is a mode iff each of its characters is in `"0123456789"` (the empty token included) |
| `OpenWith.DigitOnAscii` | ConfigFiles/ranger/commands.py:113 | `IsDigit`, Python's `isdigit()`, agrees on ASCII text with "non-empty and a mode" |
| `OpenWith.ModeIsDigit` | ConfigFiles/ranger/commands.py:113-122 | every non-empty `_is_mode` token passes `isdigit()` |
| `OpenWith.NonAsciiDigitDropped` | ConfigFiles/ranger/commands.py:58-65 | a token that `isdigit()` accepts but that is not an ASCII digit and not a flag is neither app nor mode, and gives ("", "", 0) |
| `OpenWith.IsApp` | ConfigFiles/ranger/commands.py:112-122 | an application name is never a flags string and never a non-empty ASCII-digit string |
| `OpenWith.SortTokens` | ConfigFiles/ranger/commands.py:58-108 | the mode local is always a digit string; app is only ever the first token; flags and mode are only ever one of the first three tokens, and flags is made of allowed characters |
| `OpenWith.GetAppFlagsMode` | ConfigFiles/ranger/commands.py:43-110 | app is non-empty iff the first token is an application name, and then equals it; non-empty flags is one of the first three tokens and made of allowed characters; a non-zero mode is the value of one of the first three tokens, which is all ASCII digits |
| `OpenWith.FirstFit` | ConfigFiles/ranger/commands.py:60-65 | a token gets a category it fits from the open ones, and none exactly when it fits none of them |
| `OpenWith.FirstFitIsFirst` | ConfigFiles/ranger/commands.py:60-65 | the category found is the first of the open ones the token fits: application before flags before mode |
| `OpenWith.Chain` | ConfigFiles/ranger/commands.py:58-108 | each claimed token fits its category; no two tokens claim the same category; only the first token may claim app |
| `OpenWith.SortTokensIsChain` | ConfigFiles/ranger/commands.py:58-108 | the decision tree equals the chain of claims on every token list, so each field comes from at most one token and distinct fields from distinct tokens |
| `OpenWith.ChainAfterApp` | ConfigFiles/ranger/commands.py:91-100 | after an application name, token 1 takes flags or mode and token 2 the one left |
| `OpenWith.ChainAfterFlags` | ConfigFiles/ranger/commands.py:101-104 | after a flags string, token 1 may only take the mode and token 2 is not read |
| `OpenWith.ChainAfterMode` | ConfigFiles/ranger/commands.py:105-108 | after a mode, token 1 may only take the flags and token 2 is not read |
| `OpenWith.BlankGivesDefault` | ConfigFiles/ranger/commands.py:50-56 | an empty or all-whitespace argument gives ("", "", 0), never None |
| `OpenWith.DocstringTokens` | ConfigFiles/ranger/commands.py:47-48 | the docstring's example lines split into the tokens they show |
| `OpenWith.DocstringAppFlagsMode` | ConfigFiles/ranger/commands.py:47 | "mplayer f 1" gives ("mplayer", "f", 1) when f is an allowed flag and mplayer is not flags-only |
| `OpenWith.DocstringAppMode` | ConfigFiles/ranger/commands.py:48 | "atool 4" gives ("atool", "", 4) when 4 is not an allowed flag and atool is not flags-only |
| `OpenWith.DocstringFlagsOnly` | ConfigFiles/ranger/commands.py:49 | "p" gives ("", "p", 0) when p is an allowed flag |
| `OpenWith.ClassifyAppend` | ConfigFiles/ranger/commands.py:56-110 | the result for two parts joined by whitespace is that of their concatenated token lists |
| `OpenWith.FourthTokenIgnored` | ConfigFiles/ranger/commands.py:86-89 | with three tokens or more, anything appended leaves the result unchanged |
| `OpenWith.ThirdTokenIgnored` | ConfigFiles/ranger/commands.py:101-108 | when the first of two tokens is not an application name, a third token changes nothing |
| `OpenWith.ChainStopped` | ConfigFiles/ranger/commands.py:58-108 | once a token fits no open category, later tokens never change the claims |
| `OpenWith.PickPrefix` | ConfigFiles/ranger/commands.py:58-108 | a field's value depends only on the tokens that claimed a category |
| `OpenWith.StopsAtFirstMisfit` | ConfigFiles/ranger/commands.py:58-108 | if some token fits no open category, nothing appended after the argument changes the result |
| `OpenWith.FirstMisfitGivesDefault` | ConfigFiles/ranger/commands.py:58-108 | a first token that is neither application, flags nor mode claims nothing and gives ("", "", 0) |
| `Delete.ConfirmPlan` | ConfigFiles/ranger/commands.py:271-280 | "never" deletes without asking; "multiple" asks iff many files; every other setting asks |
| `Delete.ManyFromArguments` | ConfigFiles/ranger/commands.py:257-259 | an empty file list fails (indexing `files[0]`); otherwise many iff more than one file or one non-empty directory |
| `Delete.MoreFilesStillAsk` | ConfigFiles/ranger/commands.py:272 | a setting that asks for one plain file also asks for many |
| `Delete.UnaskedArgumentDeletion` | ConfigFiles/ranger/commands.py:257-280 | named files are deleted unasked only under "never", or under "multiple" for one file that is not a non-empty directory |
| `Delete.UnaskedSelectionDeletion` | ConfigFiles/ranger/commands.py:261-280 | the selection is deleted unasked exactly under "never", or under "multiple" when nothing is marked and the current file is not a non-empty directory |
| `Delete.OfferedChoices` | ConfigFiles/ranger/commands.py:276-287 | of the offered answers n, N, y, Y exactly y and Y confirm |
| `Delete.DeletionNeedsYes` | ConfigFiles/ranger/commands.py:271-287 | when the setting asks, the files are deleted iff the answer is y or Y; under "never" they are deleted whatever the answer |
| `DefaultLinemode.ParseSelector` | ConfigFiles/ranger/commands.py:135-145 | `path=` gives "path" and the text after 5 characters; `tag=` gives "tag" and the text after 4; anything else gives ("always", None) and is not consumed |
| `DefaultLinemode.ParseRendered` | ConfigFiles/ranger/commands.py:138-145 | parsing `path=x` or `tag=x` gives back the method and x, and consumes the word |
| `DefaultLinemode.RenderParsed` | ConfigFiles/ranger/commands.py:138-145 | a consumed word is exactly its method, `=`, and the parsed argument |
| `DefaultLinemode.MissingArgumentIsAlways` | ConfigFiles/ranger/commands.py:130-137 | with no first argument the entry applies always |
| `Quit.Quit` | ConfigFiles/ranger/commands.py:177-187 | closes the tab iff at least two tabs are open; exits only when no task runs; refuses only when tasks run |
| `Quit.QuitBang` | ConfigFiles/ranger/commands.py:199-203 | never refuses; closes the tab iff at least two tabs are open |
| `Quit.QuitAll` | ConfigFiles/ranger/commands.py:211-218 | never closes a tab; exits iff no task runs |
| `Quit.QuitVariantsAgree` | ConfigFiles/ranger/commands.py:183-218 | quit and quit! differ exactly when one tab is left and tasks run, and then quit refuses; with one tab quit acts as quitall |

## Left out

- The host interaction of every `execute` and `tab` method is not modelled:
  `self.fm`, tabs, selection, `notify`, `execute_file`, console questions,
  bookmarks and tags. This is ranger's object model, which is not part of
  this model.
- The notices of `default_linemode` (usage, invalid line mode) are not
  modelled. Neither is the entry it prepends to `default_linemodes`, nor the
  redraw loop. `rest(1)` belongs to ranger's `Command` class, which is not
  part of this model.
- `re.compile` of the `path=` argument is not modelled: the argument is kept
  as the regular expression's source text.
- Filesystem calls (`isdir`, `islink`, `listdir`, `makedirs`, `open`,
  `access`, `lexists`, `expanduser`) are not modelled. "Is a directory with
  entries" is a parameter of `Delete`.
- `shlex.split` in `delete` is not modelled. The list of files it yields is
  a parameter.
- The value of the host's `ALLOWED_FLAGS` is not modelled. It is the
  parameter `allowed`.
- Which non-ASCII characters Python's `str.isdigit()` accepts is not
  modelled. It is the parameter `digits`, fixed only on ASCII.
- `:quitall!` always exits and has no decision to model.
- The commands `echo`, `mkdir`, `touch`, `edit`, `rename`, `help_` and
  `grep` are not modelled. Their decisions depend on host and filesystem
  state, which is not part of this model: `rename` stops on an empty name,
  an unchanged name or an existing target; `help_` dispatches on the
  answer; `edit` falls back to the current file; `mkdir` and `touch` refuse
  an existing path; `grep` runs only with an argument.
- `Command.arg` and `Command.rest` belong to ranger's `Command` class. The
  helper `DefaultLinemode.Arg` takes `arg(n)` to be the n-th word, or ""
  past the end.
- OpenWith.GetAppFlagsMode and DecimalInt.DecimalValue: the model is total.
  On CPython 3.11 and later, `int()` refuses a digit string longer than
  4300 digits (`sys.int_max_str_digits`), so a mode token that long makes
  the source raise `ValueError` at line 110. That limit is an interpreter
  setting, not part of this model.
- `ConfigFiles/wayland/scripts/cheatsheet.py` is not modelled. It is a
  GTK window built from static data, with no algorithmic content.
