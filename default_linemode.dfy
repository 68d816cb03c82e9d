/** ranger's `:default_linemode [path=<regexp> | tag=<tag(s)>] <linemode>`:
    the optional first argument chooses which files the line mode applies
    to. */
module DefaultLinemode {
  import opened Optional

  /** How an entry of the default line modes is matched against a file (the source's `method`).
      For "path" the argument is the regular expression's source text. */
  datatype Selector = Selector(kind: string, argument: Option<string>, consumed: bool)

  /** `self.arg(n)`: the n-th word of the command, or "" past the end. */
  function Arg(args: seq<string>, n: nat): (a: string)
  {
    if n < |args| then args[n] else ""
  }

  /** The prefix test on the first argument; `consumed` says whether the
      command shifts it off before reading the line mode. */
  function ParseSelector(arg1: string): (o: Selector)
    ensures o.consumed <==> o.argument.Some?
    ensures o.kind in {"always", "path", "tag"}
    ensures o.kind == "path" <==> "path=" <= arg1
    ensures o.kind == "path" ==> o.argument == Some(arg1[5..])
    ensures o.kind == "tag" <==> "tag=" <= arg1
    ensures o.kind == "tag" ==> o.argument == Some(arg1[4..])
    ensures o.kind == "always" ==> o == Selector("always", None, false)
  {
    if "path=" <= arg1 then
      assert arg1[0] == 'p';
      Selector("path", Some(arg1[5..]), true)
    else if "tag=" <= arg1 then Selector("tag", Some(arg1[4..]), true)
    else Selector("always", None, false)
  }

  /** The option word that selects `kind` with `argument`. */
  function Render(kind: string, argument: string): string
  {
    kind + "=" + argument
  }

  /** Parsing a rendered option gives back its kind and argument. */
  lemma ParseRendered(kind: string, argument: string)
    requires kind == "path" || kind == "tag"
    ensures ParseSelector(Render(kind, argument)) == Selector(kind, Some(argument), true)
  {
    var w := Render(kind, argument);
    if kind == "path" {
      assert w[..5] == "path=" && w[5..] == argument;
    } else {
      assert w[..4] == "tag=" && w[4..] == argument;
      assert w[0] == 't';
    }
  }

  /** A consumed first argument is exactly the rendering of what was parsed
      out of it. */
  lemma RenderParsed(arg1: string)
    requires ParseSelector(arg1).consumed
    ensures Render(ParseSelector(arg1).kind, ParseSelector(arg1).argument.value) == arg1
  {
    var o := ParseSelector(arg1);
    if o.kind == "path" {
      assert arg1 == arg1[..5] + arg1[5..];
    } else {
      assert arg1 == arg1[..4] + arg1[4..];
    }
  }

  /** Without a first argument the entry applies always. */
  lemma MissingArgumentIsAlways(args: seq<string>)
    requires |args| < 2
    ensures ParseSelector(Arg(args, 1)) == Selector("always", None, false)
  {
  }
}
