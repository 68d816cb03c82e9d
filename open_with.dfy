/** The argument parser of ranger's `:open_with` command: the rest of the
    command line is cut into tokens, and the first three tokens at most are
    sorted into an application name, a string of launch flags and a numeric
    mode. */
module OpenWith {
  import opened StrSplit
  import opened DecimalInt
  import opened Optional

  /** Python's `str.isdigit()` accepts, among ASCII characters, exactly
      `0`..`9`, and beyond ASCII many more (other scripts' digits,
      superscripts). The set of characters it accepts is kept abstract:
      any set that agrees with `0`..`9` on ASCII. */
  predicate AgreesOnAscii(digits: set<char>)
  {
    forall c: char :: (c as int) < 128 ==> (c in digits <==> IsAsciiDigit(c))
  }

  type DigitChars = digits: set<char> | AgreesOnAscii(digits)
    witness {'0', '1', '2', '3', '4', '5', '6', '7', '8', '9'}

  /** `_is_flags`: every character is an allowed launch flag. */
  predicate IsFlags(allowed: set<char>, arg: string)
  {
    forall i :: 0 <= i < |arg| ==> arg[i] in allowed
  }

  /** `_is_mode`: every character is one of `0123456789`. */
  predicate IsMode(arg: string)
  {
    AllAsciiDigits(arg)
  }

  /** Python's `arg.isdigit()`: non-empty, and every character a digit. */
  predicate IsDigit(digits: DigitChars, arg: string)
  {
    arg != [] && forall i :: 0 <= i < |arg| ==> arg[i] in digits
  }

  /** `_is_app`: neither flags-only nor `isdigit()`. So an application name
      is never a flags string and never a non-empty run of ASCII digits. */
  predicate IsApp(allowed: set<char>, digits: DigitChars, arg: string)
    ensures IsApp(allowed, digits, arg) ==> !IsFlags(allowed, arg) && (arg == [] || !IsMode(arg))
  {
    !IsFlags(allowed, arg) && !IsDigit(digits, arg)
  }

  /** `_is_flags` read as a set: the characters of the token are a subset
      of the allowed flags. */
  lemma FlagsAreAllowedChars(allowed: set<char>, arg: string)
    ensures IsFlags(allowed, arg) <==> (set i | 0 <= i < |arg| :: arg[i]) <= allowed
  {
  }

  /** `_is_mode` read as membership in the literal `"0123456789"`. */
  lemma ModeIsDigitLiteral(arg: string)
    ensures IsMode(arg) <==> forall c :: c in arg ==> c in "0123456789"
  {
    forall c | c in arg && IsMode(arg) ensures c in "0123456789" {
      var i :| 0 <= i < |arg| && arg[i] == c;
      assert IsAsciiDigit(c);
      assert c == "0123456789"[(c as int) - ('0' as int)];
    }
    if forall c :: c in arg ==> c in "0123456789" {
      forall i | 0 <= i < |arg| ensures IsAsciiDigit(arg[i]) {
        assert arg[i] in arg;
      }
    }
  }

  /** On ASCII text `isdigit()` and `_is_mode` agree, except that
      `isdigit()` refuses the empty string. */
  lemma DigitOnAscii(digits: DigitChars, arg: string)
    requires forall i :: 0 <= i < |arg| ==> (arg[i] as int) < 128
    ensures IsDigit(digits, arg) <==> arg != [] && IsMode(arg)
  {
    forall i | 0 <= i < |arg| ensures arg[i] in digits <==> IsAsciiDigit(arg[i]) {
      assert (arg[i] as int) < 128;
    }
  }

  /** The two digit tests differ: every non-empty `_is_mode` token is
      `isdigit()`, so it is never an application name. */
  lemma ModeIsDigit(digits: DigitChars, t: string)
    requires t != [] && IsMode(t)
    ensures IsDigit(digits, t)
  {
    forall i | 0 <= i < |t| ensures t[i] in digits {
      assert IsAsciiDigit(t[i]) && (t[i] as int) < 128;
    }
  }

  /** What `_get_app_flags_mode` returns. */
  datatype Launch = Launch(app: string, flags: string, mode: nat)

  const Default := Launch("", "", 0)

  /** The method's three locals just before `int(mode)`. The initial mode
      `0` is represented by "", which `DecimalValue` also reads as 0; every
      token that is assigned to mode is a non-empty digit string. */
  datatype Fields = Fields(app: string, flags: string, mode: string)

  /** The decision tree on the token list, branch for branch. */
  function SortTokens(allowed: set<char>, digits: DigitChars, split: seq<string>): (f: Fields)
    ensures IsMode(f.mode)
    ensures f.app != "" ==> |split| > 0 && f.app == split[0] && IsApp(allowed, digits, split[0])
    ensures f.flags != "" ==>
              IsFlags(allowed, f.flags) && exists i :: 0 <= i < |split| && i < 3 && split[i] == f.flags
    ensures f.mode != "" ==> exists i :: 0 <= i < |split| && i < 3 && split[i] == f.mode
  {
    if |split| == 1 then
      var part := split[0];
      if IsApp(allowed, digits, part) then Fields(part, "", "")
      else if IsFlags(allowed, part) then Fields("", part, "")
      else if IsMode(part) then Fields("", "", part)
      else Fields("", "", "")
    else if |split| == 2 then
      var part0, part1 := split[0], split[1];
      if IsApp(allowed, digits, part0) then
        if IsFlags(allowed, part1) then Fields(part0, part1, "")
        else if IsMode(part1) then Fields(part0, "", part1)
        else Fields(part0, "", "")
      else if IsFlags(allowed, part0) then
        if IsMode(part1) then Fields("", part0, part1) else Fields("", part0, "")
      else if IsMode(part0) then
        if IsFlags(allowed, part1) then Fields("", part1, part0) else Fields("", "", part0)
      else Fields("", "", "")
    else if |split| >= 3 then
      var part0, part1, part2 := split[0], split[1], split[2];
      if IsApp(allowed, digits, part0) then
        if IsFlags(allowed, part1) then
          if IsMode(part2) then Fields(part0, part1, part2) else Fields(part0, part1, "")
        else if IsMode(part1) then
          if IsFlags(allowed, part2) then Fields(part0, part2, part1) else Fields(part0, "", part1)
        else Fields(part0, "", "")
      else if IsFlags(allowed, part0) then
        if IsMode(part1) then Fields("", part0, part1) else Fields("", part0, "")
      else if IsMode(part0) then
        if IsFlags(allowed, part1) then Fields("", part1, part0) else Fields("", "", part0)
      else Fields("", "", "")
    else
      Fields("", "", "")
  }

  /** `_get_app_flags_mode(string)` with the host's `ALLOWED_FLAGS` as
      `allowed` and the characters `str.isdigit()` accepts as `digits`. */
  function GetAppFlagsMode(allowed: set<char>, digits: DigitChars, s: string): (r: Launch)
    ensures r.app != "" <==> Split(s) != [] && IsApp(allowed, digits, Split(s)[0])
    ensures r.app != "" ==> r.app == Split(s)[0]
    ensures r.flags != "" ==>
              IsFlags(allowed, r.flags) && exists i :: 0 <= i < |Split(s)| && i < 3 && Split(s)[i] == r.flags
    ensures r.mode != 0 ==>
              exists i :: 0 <= i < |Split(s)| && i < 3 && IsMode(Split(s)[i]) && r.mode == DecimalValue(Split(s)[i])
  {
    var f := SortTokens(allowed, digits, Split(s));
    Launch(f.app, f.flags, DecimalValue(f.mode))
  }

  // ---------------------------------------------------------------------
  // An independent reading of the same rules: a chain of claims.
  // Each token, left to right, takes the first category, in the order
  // application, flags, mode, that is still open and that it fits; an
  // application name may only stand first; the chain stops at the first
  // token that fits no open category, or when no category is left.
  // ---------------------------------------------------------------------

  datatype Category = App | Flags | Mode

  predicate Fits(allowed: set<char>, digits: DigitChars, c: Category, t: string)
  {
    match c
    case App => IsApp(allowed, digits, t)
    case Flags => IsFlags(allowed, t)
    case Mode => IsMode(t)
  }

  /** The first category of `open` that `t` fits. */
  function FirstFit(allowed: set<char>, digits: DigitChars, open: seq<Category>, t: string): (r: Option<Category>)
    ensures r.Some? ==> r.value in open && Fits(allowed, digits, r.value, t)
    ensures r.None? <==> forall k :: 0 <= k < |open| ==> !Fits(allowed, digits, open[k], t)
  {
    if open == [] then None
    else if Fits(allowed, digits, open[0], t) then Some(open[0])
    else FirstFit(allowed, digits, open[1..], t)
  }

  /** The category found is the first in `open` that `t` fits: every
      category listed before it is one `t` does not fit. This is the
      priority application, then flags, then mode of the `elif` chains. */
  lemma {:induction false} FirstFitIsFirst(allowed: set<char>, digits: DigitChars, open: seq<Category>, t: string)
    requires FirstFit(allowed, digits, open, t).Some?
    ensures exists k :: 0 <= k < |open| && open[k] == FirstFit(allowed, digits, open, t).value
              && forall j :: 0 <= j < k ==> !Fits(allowed, digits, open[j], t)
  {
    var c := FirstFit(allowed, digits, open, t).value;
    if Fits(allowed, digits, open[0], t) {
      assert open[0] == c;
    } else {
      FirstFitIsFirst(allowed, digits, open[1..], t);
      var k :| 0 <= k < |open[1..]| && open[1..][k] == c
        && forall j :: 0 <= j < k ==> !Fits(allowed, digits, open[1..][j], t);
      forall j | 0 <= j < k + 1 ensures !Fits(allowed, digits, open[j], t) {
        if j > 0 { assert open[j] == open[1..][j - 1]; }
      }
      assert open[k + 1] == c;
    }
  }

  /** `open` without the categories in `drop`, order kept. */
  function Without(open: seq<Category>, drop: set<Category>): (r: seq<Category>)
    ensures forall k :: 0 <= k < |r| ==> r[k] in open && r[k] !in drop
    ensures |r| <= |open|
  {
    if open == [] then []
    else if open[0] in drop then Without(open[1..], drop)
    else [open[0]] + Without(open[1..], drop)
  }

  /** `claims[i]` is the category token `i` takes. */
  function Chain(allowed: set<char>, digits: DigitChars, toks: seq<string>, open: seq<Category>): (claims: seq<Category>)
    ensures |claims| <= |toks|
    ensures forall i :: 0 <= i < |claims| ==> claims[i] in open && Fits(allowed, digits, claims[i], toks[i])
    ensures forall i :: 0 < i < |claims| ==> claims[i] != App
    ensures forall i, j :: 0 <= i < j < |claims| ==> claims[i] != claims[j]
    decreases |toks|
  {
    if toks == [] then []
    else
      match FirstFit(allowed, digits, open, toks[0])
      case None => []
      case Some(c) => [c] + Chain(allowed, digits, toks[1..], Without(open, {c, App}))
  }

  function Claims(allowed: set<char>, digits: DigitChars, toks: seq<string>): (claims: seq<Category>)
  {
    Chain(allowed, digits, toks, [App, Flags, Mode])
  }

  /** The token that claimed category `c`, or "" if none did. */
  function Pick(toks: seq<string>, claims: seq<Category>, c: Category): string
    requires |claims| <= |toks|
  {
    if claims == [] then ""
    else if claims[0] == c then toks[0]
    else Pick(toks[1..], claims[1..], c)
  }

  function FromClaims(toks: seq<string>, claims: seq<Category>): Fields
    requires |claims| <= |toks|
  {
    Fields(Pick(toks, claims, App), Pick(toks, claims, Flags), Pick(toks, claims, Mode))
  }

  /** Reading one claim off the front of the chain. */
  lemma FromClaimsCons(toks: seq<string>, c: Category, rest: seq<Category>)
    requires 1 + |rest| <= |toks|
    requires c !in rest
    ensures FromClaims(toks, [c] + rest) ==
      var f := FromClaims(toks[1..], rest);
      match c
      case App => f.(app := toks[0])
      case Flags => f.(flags := toks[0])
      case Mode => f.(mode := toks[0])
  {
    assert ([c] + rest)[1..] == rest;
  }

  /** With one category left (flags or mode), the chain takes at most the
      next token. */
  lemma ChainLastOpen(allowed: set<char>, digits: DigitChars, toks: seq<string>, c: Category)
    requires c != App
    ensures Chain(allowed, digits, toks, [c]) ==
      if toks != [] && Fits(allowed, digits, c, toks[0]) then [c] else []
  {
    if toks != [] && Fits(allowed, digits, c, toks[0]) {
      assert Without([c], {c, App}) == [];
      assert Chain(allowed, digits, toks[1..], []) == [];
    }
  }

  /** With flags and mode open, the chain takes one of them and then
      possibly the other. */
  lemma ChainFlagsMode(allowed: set<char>, digits: DigitChars, toks: seq<string>)
    ensures Chain(allowed, digits, toks, [Flags, Mode]) ==
      if toks == [] then []
      else if IsFlags(allowed, toks[0]) then [Flags] + Chain(allowed, digits, toks[1..], [Mode])
      else if IsMode(toks[0]) then [Mode] + Chain(allowed, digits, toks[1..], [Flags])
      else []
  {
    if toks != [] {
      if IsFlags(allowed, toks[0]) {
        assert Without([Flags, Mode], {Flags, App}) == [Mode];
      } else {
        assert [Flags, Mode][1..] == [Mode];
        if IsMode(toks[0]) {
          assert FirstFit(allowed, digits, [Flags, Mode], toks[0]) == Some(Mode);
          assert Without([Flags, Mode], {Mode, App}) == [Flags];
        } else {
          assert FirstFit(allowed, digits, [Flags, Mode], toks[0]) == None;
        }
      }
    }
  }

  /** After an application name, the chain of the remaining tokens read
      back into fields, when token 1 is a flags string. */
  lemma AppThenFlags(allowed: set<char>, digits: DigitChars, toks: seq<string>)
    requires |toks| >= 2 && IsFlags(allowed, toks[1])
    ensures FromClaims(toks, [App] + Chain(allowed, digits, toks[1..], [Flags, Mode])) ==
      if |toks| > 2 && IsMode(toks[2]) then Fields(toks[0], toks[1], toks[2])
      else Fields(toks[0], toks[1], "")
  {
    var r1 := toks[1..];
    ChainFlagsMode(allowed, digits, r1);
    ChainLastOpen(allowed, digits, r1[1..], Mode);
    if |r1| > 1 && IsMode(r1[1]) {
      FromClaimsCons(toks, App, [Flags, Mode]); FromClaimsCons(r1, Flags, [Mode]);
      FromClaimsCons(r1[1..], Mode, []);
    } else {
      FromClaimsCons(toks, App, [Flags]); FromClaimsCons(r1, Flags, []);
    }
  }

  /** The same when token 1 is a mode and not a flags string. */
  lemma AppThenMode(allowed: set<char>, digits: DigitChars, toks: seq<string>)
    requires |toks| >= 2 && !IsFlags(allowed, toks[1]) && IsMode(toks[1])
    ensures FromClaims(toks, [App] + Chain(allowed, digits, toks[1..], [Flags, Mode])) ==
      if |toks| > 2 && IsFlags(allowed, toks[2]) then Fields(toks[0], toks[2], toks[1])
      else Fields(toks[0], "", toks[1])
  {
    var r1 := toks[1..];
    ChainFlagsMode(allowed, digits, r1);
    ChainLastOpen(allowed, digits, r1[1..], Flags);
    if |r1| > 1 && IsFlags(allowed, r1[1]) {
      FromClaimsCons(toks, App, [Mode, Flags]); FromClaimsCons(r1, Mode, [Flags]);
      FromClaimsCons(r1[1..], Flags, []);
    } else {
      FromClaimsCons(toks, App, [Mode]); FromClaimsCons(r1, Mode, []);
    }
  }

  /** Token 0 names the application: token 1 may take flags or mode, and
      token 2 the one of the two that is left. */
  lemma ChainAfterApp(allowed: set<char>, digits: DigitChars, toks: seq<string>)
    requires toks != [] && IsApp(allowed, digits, toks[0])
    ensures SortTokens(allowed, digits, toks) == FromClaims(toks, Claims(allowed, digits, toks))
  {
    var r1 := toks[1..];
    assert FirstFit(allowed, digits, [App, Flags, Mode], toks[0]) == Some(App);
    assert Without([App, Flags, Mode], {App, App}) == [Flags, Mode];
    assert Claims(allowed, digits, toks) == [App] + Chain(allowed, digits, r1, [Flags, Mode]);
    if r1 == [] {
      ChainFlagsMode(allowed, digits, r1);
      FromClaimsCons(toks, App, []);
    } else if IsFlags(allowed, r1[0]) {
      AppThenFlags(allowed, digits, toks);
    } else if IsMode(r1[0]) {
      AppThenMode(allowed, digits, toks);
    } else {
      ChainFlagsMode(allowed, digits, r1);
      FromClaimsCons(toks, App, []);
    }
  }

  /** Token 0 is a flags string: token 1 may only take the mode, and no
      category is left for token 2. */
  lemma ChainAfterFlags(allowed: set<char>, digits: DigitChars, toks: seq<string>)
    requires toks != [] && IsFlags(allowed, toks[0])
    ensures SortTokens(allowed, digits, toks) == FromClaims(toks, Claims(allowed, digits, toks))
  {
    var claims := Claims(allowed, digits, toks);
    var r1 := toks[1..];
    assert [App, Flags, Mode][1..] == [Flags, Mode];
    assert FirstFit(allowed, digits, [App, Flags, Mode], toks[0]) == Some(Flags);
    assert Without([App, Flags, Mode], {Flags, App}) == [Mode];
    assert claims == [Flags] + Chain(allowed, digits, r1, [Mode]);
    ChainLastOpen(allowed, digits, r1, Mode);
    if r1 != [] && IsMode(r1[0]) {
      assert claims == [Flags, Mode];
      FromClaimsCons(toks, Flags, [Mode]); FromClaimsCons(toks[1..], Mode, []);
    } else {
      assert claims == [Flags];
      FromClaimsCons(toks, Flags, []);
    }
  }

  /** Token 0 is a mode: token 1 may only take the flags, and no category
      is left for token 2. */
  lemma ChainAfterMode(allowed: set<char>, digits: DigitChars, toks: seq<string>)
    requires toks != [] && !IsFlags(allowed, toks[0]) && IsMode(toks[0])
    ensures SortTokens(allowed, digits, toks) == FromClaims(toks, Claims(allowed, digits, toks))
  {
    var claims := Claims(allowed, digits, toks);
    var r1 := toks[1..];
    assert [App, Flags, Mode][1..] == [Flags, Mode] && [Flags, Mode][1..] == [Mode];
    assert FirstFit(allowed, digits, [Mode], toks[0]) == Some(Mode);
    assert FirstFit(allowed, digits, [Flags, Mode], toks[0]) == Some(Mode);
    assert FirstFit(allowed, digits, [App, Flags, Mode], toks[0]) == Some(Mode);
    assert Without([App, Flags, Mode], {Mode, App}) == [Flags];
    assert claims == [Mode] + Chain(allowed, digits, r1, [Flags]);
    ChainLastOpen(allowed, digits, r1, Flags);
    if r1 != [] && IsFlags(allowed, r1[0]) {
      assert claims == [Mode, Flags];
      FromClaimsCons(toks, Mode, [Flags]); FromClaimsCons(toks[1..], Flags, []);
    } else {
      assert claims == [Mode];
      FromClaimsCons(toks, Mode, []);
    }
  }

  /** The decision tree of the source and the chain of claims agree on every
      token list. */
  lemma SortTokensIsChain(allowed: set<char>, digits: DigitChars, toks: seq<string>)
    ensures SortTokens(allowed, digits, toks) == FromClaims(toks, Claims(allowed, digits, toks))
  {
    if toks == [] {
    } else if IsApp(allowed, digits, toks[0]) {
      ChainAfterApp(allowed, digits, toks);
    } else if IsFlags(allowed, toks[0]) {
      ChainAfterFlags(allowed, digits, toks);
    } else if IsMode(toks[0]) {
      ChainAfterMode(allowed, digits, toks);
    } else {
      assert FirstFit(allowed, digits, [App, Flags, Mode], toks[0]) == None;
    }
  }

  // ---------------------------------------------------------------------
  // Properties of `_get_app_flags_mode` on whole command lines.
  // ---------------------------------------------------------------------

  /** An empty or all-whitespace argument gives ("", "", 0); the method
      never returns None. */
  lemma BlankGivesDefault(allowed: set<char>, digits: DigitChars, s: string)
    requires AllSpace(s)
    ensures GetAppFlagsMode(allowed, digits, s) == Default
  {
    SplitEmpty(s);
  }

  /** How the docstring's examples split into tokens. */
  lemma DocstringTokens()
    ensures Split("mplayer f 1") == ["mplayer", "f", "1"]
    ensures Split("atool 4") == ["atool", "4"]
  {
    assert ["mplayer", "f", "1"][1..] == ["f", "1"] && ["f", "1"][1..] == ["1"];
    assert Join(["mplayer", "f", "1"]) == "mplayer f 1";
    SplitJoin(["mplayer", "f", "1"]);
    assert ["atool", "4"][1..] == ["4"];
    assert Join(["atool", "4"]) == "atool 4";
    SplitJoin(["atool", "4"]);
  }

  /** The docstring's first example, `"mplayer f 1" => ("mplayer", "f", 1)`,
      for any host whose allowed flags include `f`, and in which
      `mplayer` is not made of flag characters alone. */
  lemma DocstringAppFlagsMode(allowed: set<char>, digits: DigitChars)
    requires 'f' in allowed && !IsFlags(allowed, "mplayer")
    ensures GetAppFlagsMode(allowed, digits, "mplayer f 1") == Launch("mplayer", "f", 1)
  {
    DocstringTokens();
    assert SortTokens(allowed, digits, ["mplayer", "f", "1"]) == Fields("mplayer", "f", "1") by {
      assert IsApp(allowed, digits, "mplayer") by { assert 'm' !in digits; }
      assert IsFlags(allowed, "f") && IsMode("1");
    }
    assert DecimalValue("1") == 1;
  }

  /** The docstring's second example, `"atool 4" => ("atool", "", 4)`, for
      any host whose allowed flags exclude `4` and in which `atool` is not
      made of flag characters alone. */
  lemma DocstringAppMode(allowed: set<char>, digits: DigitChars)
    requires '4' !in allowed && !IsFlags(allowed, "atool")
    ensures GetAppFlagsMode(allowed, digits, "atool 4") == Launch("atool", "", 4)
  {
    DocstringTokens();
    assert 'a' !in digits;
    assert IsApp(allowed, digits, "atool");
    assert "4"[0] !in allowed;
    assert DecimalValue("4") == 4;
  }

  /** The docstring's third example, `"p" => ("", "p", 0)`, for any host
      that allows the flag `p`. (Its fourth, `"" => None`, does not hold:
      see BlankGivesDefault.) */
  lemma DocstringFlagsOnly(allowed: set<char>, digits: DigitChars)
    requires 'p' in allowed
    ensures GetAppFlagsMode(allowed, digits, "p") == Launch("", "p", 0)
  {
    SplitWord("p");
  }

  /** Whitespace between two parts of the argument: the result is that of
      the concatenated token lists. */
  lemma ClassifyAppend(allowed: set<char>, digits: DigitChars, s: string, sp: char, w: string)
    requires IsSpace(sp)
    ensures GetAppFlagsMode(allowed, digits, s + [sp] + w) ==
      var f := SortTokens(allowed, digits, Split(s) + Split(w));
      Launch(f.app, f.flags, DecimalValue(f.mode))
  {
    SplitAppend(s, sp, w);
  }

  /** Only the first three tokens are read: once there are three, anything
      appended after whitespace leaves the result unchanged. */
  lemma FourthTokenIgnored(allowed: set<char>, digits: DigitChars, s: string, sp: char, w: string)
    requires IsSpace(sp) && |Split(s)| >= 3
    ensures GetAppFlagsMode(allowed, digits, s + [sp] + w) == GetAppFlagsMode(allowed, digits, s)
  {
    ClassifyAppend(allowed, digits, s, sp, w);
    var toks := Split(s);
    assert (toks + Split(w))[..3] == toks[..3];
  }

  /** When the first of the tokens is a flags string or a mode, a third
      token is never read: appending one to two tokens changes nothing. */
  lemma ThirdTokenIgnored(allowed: set<char>, digits: DigitChars, s: string, sp: char, w: string)
    requires IsSpace(sp) && |Split(s)| == 2 && !IsApp(allowed, digits, Split(s)[0])
    ensures GetAppFlagsMode(allowed, digits, s + [sp] + w) == GetAppFlagsMode(allowed, digits, s)
  {
    ClassifyAppend(allowed, digits, s, sp, w);
    var toks := Split(s);
    assert (toks + Split(w))[..2] == toks;
  }

  /** A chain that stopped before the end of the token list stays stopped
      whatever tokens follow. */
  lemma {:induction false} ChainStopped(allowed: set<char>, digits: DigitChars, toks: seq<string>, more: seq<string>, open: seq<Category>)
    requires |Chain(allowed, digits, toks, open)| < |toks|
    ensures Chain(allowed, digits, toks + more, open) == Chain(allowed, digits, toks, open)
    decreases |toks|
  {
    assert (toks + more)[0] == toks[0];
    match FirstFit(allowed, digits, open, toks[0])
    case None =>
    case Some(c) =>
      assert (toks + more)[1..] == toks[1..] + more;
      ChainStopped(allowed, digits, toks[1..], more, Without(open, {c, App}));
  }

  /** Picking a claimed token only looks at the claimed positions. */
  lemma {:induction false} PickPrefix(toks: seq<string>, more: seq<string>, claims: seq<Category>, c: Category)
    requires |claims| <= |toks|
    ensures Pick(toks + more, claims, c) == Pick(toks, claims, c)
  {
    if claims != [] {
      assert (toks + more)[0] == toks[0];
      assert (toks + more)[1..] == toks[1..] + more;
      PickPrefix(toks[1..], more, claims[1..], c);
    }
  }

  /** The chain stops at the first token that fits no open category: if
      that happens within the argument, nothing appended to it matters. In
      particular a first token that is neither application, flags nor mode
      yields ("", "", 0) whatever follows. */
  lemma StopsAtFirstMisfit(allowed: set<char>, digits: DigitChars, s: string, sp: char, w: string)
    requires IsSpace(sp)
    requires |Claims(allowed, digits, Split(s))| < |Split(s)|
    ensures GetAppFlagsMode(allowed, digits, s + [sp] + w) == GetAppFlagsMode(allowed, digits, s)
  {
    var toks, more := Split(s), Split(w);
    ClassifyAppend(allowed, digits, s, sp, w);
    SortTokensIsChain(allowed, digits, toks);
    SortTokensIsChain(allowed, digits, toks + more);
    ChainStopped(allowed, digits, toks, more, [App, Flags, Mode]);
    var claims := Claims(allowed, digits, toks);
    PickPrefix(toks, more, claims, App);
    PickPrefix(toks, more, claims, Flags);
    PickPrefix(toks, more, claims, Mode);
  }

  /** A first token that fits no category: the default result. */
  lemma FirstMisfitGivesDefault(allowed: set<char>, digits: DigitChars, s: string)
    requires Split(s) != []
    requires forall c: Category :: !Fits(allowed, digits, c, Split(s)[0])
    ensures |Claims(allowed, digits, Split(s))| == 0
    ensures GetAppFlagsMode(allowed, digits, s) == Default
  {
    assert !Fits(allowed, digits, App, Split(s)[0]) && !Fits(allowed, digits, Flags, Split(s)[0]);
    assert !Fits(allowed, digits, Mode, Split(s)[0]);
    assert FirstFit(allowed, digits, [App, Flags, Mode], Split(s)[0]) == None;
  }

  /** A one-character token that `isdigit()` accepts but that is not an
      ASCII digit (such as the Arabic-Indic three) is neither application,
      flags nor mode, and is dropped. */
  lemma NonAsciiDigitDropped(allowed: set<char>, digits: DigitChars, c: char)
    requires c in digits && c !in allowed && !IsAsciiDigit(c) && !IsSpace(c)
    ensures GetAppFlagsMode(allowed, digits, [c]) == Default
  {
    SplitWord([c]);
    assert IsDigit(digits, [c]) && !IsFlags(allowed, [c]) && !IsMode([c]);
  }
}
