/** Prompt fragments that include one another: the cached, stack-guarded resolver against plain expansion. */
module PromptResolver {
  import opened Outcomes

  type Name = string

  datatype Simple = Lit(text: string) | Ref(name: Name)

  /** A conditional block does not contain another one. */
  datatype Piece = Plain(simple: Simple) | If(name: Name, value: string, body: seq<Simple>)

  type Content = seq<Piece>

  /** What is found for a shared name. A name can be unavailable for want of a template. */
  datatype File = Fragment(content: Content) | Absent(optional: bool) | Unavailable

  type Library = map<Name, File>

  type Args = map<Name, string>

  // ---------- rendering ----------

  function SimpleTokens(body: seq<Simple>): set<Name>
  {
    set s | s in body && s.Ref? :: s.name
  }

  function PieceTokens(p: Piece): set<Name>
  {
    match p
    case Plain(s) => SimpleTokens([s])
    case If(name, _, body) => {name} + SimpleTokens(body)
  }

  /** Every name that occurs, in conditional blocks too, whether or not these will be kept. */
  function Tokens(c: Content): set<Name>
  {
    if c == [] then {} else PieceTokens(c[0]) + Tokens(c[1..])
  }

  function Get(args: Args, name: Name): string
  {
    if name in args then args[name] else ""
  }

  function SimpleText(body: seq<Simple>, args: Args): string
  {
    if body == [] then ""
    else (match body[0] case Lit(t) => t case Ref(n) => Get(args, n)) + SimpleText(body[1..], args)
  }

  predicate Kept(p: Piece, args: Args)
  {
    p.If? && p.name in args && args[p.name] == p.value
  }

  function Text(c: Content, args: Args): string
  {
    if c == [] then ""
    else (match c[0]
          case Plain(s) => SimpleText([s], args)
          case If(_, _, body) => if Kept(c[0], args) then SimpleText(body, args) else "") + Text(c[1..], args)
  }

  /** The names that must have a value: those that stay once the conditional blocks are decided. */
  function Needed(c: Content, args: Args): set<Name>
  {
    if c == [] then {}
    else (match c[0]
          case Plain(s) => SimpleTokens([s])
          case If(_, _, body) => if Kept(c[0], args) then SimpleTokens(body) else {}) + Needed(c[1..], args)
  }

  /** pycastle's `_render`. */
  function Render(c: Content, args: Args): Option<string>
  {
    if Needed(c, args) <= args.Keys then Some(Text(c, args)) else None
  }

  predicate Agree(a: Args, b: Args, names: set<Name>)
  {
    forall n :: n in names ==> (n in a <==> n in b) && Get(a, n) == Get(b, n)
  }

  lemma {:induction false} SimpleTextAgrees(body: seq<Simple>, a: Args, b: Args)
    requires Agree(a, b, SimpleTokens(body))
    ensures SimpleText(body, a) == SimpleText(body, b)
  {
    if body != [] {
      assert body[0] in body;
      assert SimpleTokens(body[1..]) <= SimpleTokens(body);
      assert body[0].Ref? ==> body[0].name in SimpleTokens(body);
      SimpleTextAgrees(body[1..], a, b);
    }
  }

  /** Only the names that occur matter. */
  lemma {:induction false} TextAgrees(c: Content, a: Args, b: Args)
    requires Agree(a, b, Tokens(c))
    ensures Text(c, a) == Text(c, b)
  {
    if c != [] {
      TextAgrees(c[1..], a, b);
      match c[0] {
        case Plain(s) => SimpleTextAgrees([s], a, b);
        case If(_, _, body) => SimpleTextAgrees(body, a, b);
      }
    }
  }

  lemma {:induction false} NeededAreTokens(c: Content, args: Args)
    ensures Needed(c, args) <= Tokens(c)
  {
    if c != [] {
      NeededAreTokens(c[1..], args);
    }
  }

  // ---------- what rendering means ----------

  function Concat(parts: seq<string>): string
  {
    if parts == [] then "" else parts[0] + Concat(parts[1..])
  }

  predicate IsPart(part: string, s: Simple, args: Args)
  {
    match s
    case Lit(t) => part == t
    case Ref(n) => if n in args then part == args[n] else part == ""
  }

  /** The text of a block: literals as they are, references replaced, in order. */
  ghost predicate IsBlock(text: string, body: seq<Simple>, args: Args)
  {
    exists parts :: text == Concat(parts) && PartsFit(parts, body, args)
  }

  predicate PartsFit(parts: seq<string>, body: seq<Simple>, args: Args)
  {
    |parts| == |body| && forall i :: 0 <= i < |parts| ==> IsPart(parts[i], body[i], args)
  }

  /** A conditional block is there exactly when its argument has the block's value. */
  ghost predicate IsPieceText(text: string, p: Piece, args: Args)
  {
    match p
    case Plain(s) => IsPart(text, s, args)
    case If(name, value, body) => if name in args && args[name] == value then IsBlock(text, body, args) else text == ""
  }

  lemma {:induction false} SimplePartsInOrder(body: seq<Simple>, args: Args) returns (parts: seq<string>)
    ensures SimpleText(body, args) == Concat(parts) && PartsFit(parts, body, args)
  {
    if body == [] {
      parts := [];
    } else {
      var rest := SimplePartsInOrder(body[1..], args);
      var first := match body[0] case Lit(t) => t case Ref(n) => Get(args, n);
      parts := [first] + rest;
      assert parts[1..] == rest;
      assert forall i :: 0 < i < |parts| ==> parts[i] == rest[i - 1] && body[i] == body[1..][i - 1];
    }
  }

  /** A rendered text is the texts of its pieces, one after the other. */
  lemma {:induction false} TextInOrder(c: Content, args: Args) returns (parts: seq<string>)
    ensures Text(c, args) == Concat(parts) && |parts| == |c|
    ensures forall i :: 0 <= i < |c| ==> IsPieceText(parts[i], c[i], args)
  {
    if c == [] {
      parts := [];
    } else {
      var rest := TextInOrder(c[1..], args);
      var first := PieceInOrder(c[0], args);
      parts := [first] + rest;
      assert parts[1..] == rest;
      assert Text(c, args) == first + Text(c[1..], args);
      forall i | 0 <= i < |c|
        ensures IsPieceText(parts[i], c[i], args)
      {
        assert i > 0 ==> parts[i] == rest[i - 1] && c[i] == c[1..][i - 1];
      }
    }
  }

  lemma PieceInOrder(p: Piece, args: Args) returns (text: string)
    ensures IsPieceText(text, p, args)
    ensures Text([p], args) == text + "" && forall rest: Content :: Text([p] + rest, args) == text + Text(rest, args)
  {
    match p {
      case Plain(s) =>
        text := SimpleText([s], args);
        assert SimpleText([s][1..], args) == "";
      case If(_, _, body) =>
        text := if Kept(p, args) then SimpleText(body, args) else "";
        var parts := SimplePartsInOrder(body, args);
    }
    assert [p][1..] == [];
    assert forall rest: Content :: ([p] + rest)[1..] == rest;
  }

  /** A name that a piece asks for a value of. */
  predicate Asks(p: Piece, args: Args, name: Name)
  {
    match p
    case Plain(s) => s == Ref(name)
    case If(n, value, body) => n in args && args[n] == value && Ref(name) in body
  }

  lemma {:induction false} NeededIsAsked(c: Content, args: Args, name: Name)
    ensures name in Needed(c, args) <==> exists p :: p in c && Asks(p, args, name)
  {
    if c != [] {
      NeededIsAsked(c[1..], args, name);
      assert c == [c[0]] + c[1..];
      SimpleNamed(c[0], name);
      assert name in Needed(c, args) <==> Asks(c[0], args, name) || name in Needed(c[1..], args);
    }
  }

  lemma SimpleNamed(p: Piece, name: Name)
    ensures p.Plain? ==> (name in SimpleTokens([p.simple]) <==> p.simple == Ref(name))
    ensures p.If? ==> (name in SimpleTokens(p.body) <==> Ref(name) in p.body)
  {
    if p.If? && Ref(name) in p.body {
      assert Ref(name).Ref? && Ref(name).name == name;
    }
    if p.Plain? && p.simple == Ref(name) {
      assert p.simple in [p.simple];
    }
  }

  /** Rendering fails exactly when a piece that stays asks for a name without a value. */
  lemma RenderFailsWhenAsked(c: Content, args: Args)
    ensures Render(c, args).None? <==> exists p, name :: p in c && Asks(p, args, name) && name !in args
    ensures Render(c, args).Some? ==> Render(c, args).value == Text(c, args)
  {
    forall name
      ensures name in Needed(c, args) <==> exists p :: p in c && Asks(p, args, name)
    {
      NeededIsAsked(c, args, name);
    }
    if Render(c, args).None? {
      var name :| name in Needed(c, args) && name !in args;
      var p :| p in c && Asks(p, args, name);
    }
  }

  /** A name occurs when a piece is a reference to it, is conditional on it, or has a reference to it inside. */
  lemma {:induction false} TokensOccur(c: Content, name: Name)
    ensures name in Tokens(c) <==>
            exists p :: p in c && Occurs(p, name)
  {
    if c != [] {
      TokensOccur(c[1..], name);
      assert c == [c[0]] + c[1..];
      SimpleNamed(c[0], name);
      assert name in Tokens(c) <==> Occurs(c[0], name) || name in Tokens(c[1..]);
    }
  }

  predicate Occurs(p: Piece, name: Name)
  {
    p == Plain(Ref(name)) || (p.If? && (p.name == name || Ref(name) in p.body))
  }

  // ---------- the include graph ----------

  function Includes(lib: Library, k: Name): set<Name>
    requires k in lib
  {
    if lib[k].Fragment? then Tokens(lib[k].content) * lib.Keys else {}
  }

  /** The fragment itself gives no reason to fail. */
  predicate FileOk(lib: Library, names: set<Name>, k: Name)
    requires k in lib
  {
    match lib[k]
    case Fragment(c) => Tokens(c) <= names + lib.Keys
    case Absent(optional) => optional
    case Unavailable => false
  }

  /** What includes what, and which fragments are fine by themselves. */
  datatype Graph = Graph(includes: map<Name, set<Name>>, ok: set<Name>)

  predicate ValidGraph(g: Graph)
  {
    forall k :: k in g.includes ==> g.includes[k] <= g.includes.Keys
  }

  function GraphOf(lib: Library, names: set<Name>): (g: Graph)
    ensures ValidGraph(g) && g.includes.Keys == lib.Keys
  {
    Graph(map k | k in lib :: Includes(lib, k), set k | k in lib && FileOk(lib, names, k))
  }

  predicate IsPath(g: Graph, p: seq<Name>)
  {
    && p != [] && (forall i :: 0 <= i < |p| ==> p[i] in g.includes)
    && forall i :: 0 <= i < |p| - 1 ==> p[i + 1] in g.includes[p[i]]
  }

  predicate Distinct(p: seq<Name>)
  {
    forall i, j :: 0 <= i < j < |p| ==> p[i] != p[j]
  }

  predicate PathOk(g: Graph, p: seq<Name>)
  {
    Distinct(p) && forall i :: 0 <= i < |p| ==> p[i] in g.ok
  }

  /** Nothing that the fragment includes, however indirectly, includes itself, is missing, or uses an unknown name. */
  ghost predicate Clean(g: Graph, k: Name)
  {
    forall p :: IsPath(g, p) && p[0] == k ==> PathOk(g, p)
  }

  lemma TailIsPath(g: Graph, p: seq<Name>)
    requires IsPath(g, p) && |p| > 1
    ensures IsPath(g, p[1..])
  {
    var t := p[1..];
    forall i | 0 <= i < |t| - 1
      ensures t[i + 1] in g.includes[t[i]]
    {
      assert p[i + 1 + 1] in g.includes[p[i + 1]];
    }
  }

  /** The way round, from the second node of a path that comes back to its head. */
  function Loop(p: seq<Name>, i: nat): seq<Name>
    requires 0 < i < |p|
  {
    p[1..i + 1] + [p[1]]
  }

  lemma LoopIsPath(g: Graph, p: seq<Name>, i: nat)
    requires IsPath(g, p) && 0 < i < |p| && p[i] == p[0]
    ensures IsPath(g, Loop(p, i)) && Loop(p, i)[0] == p[1] && !Distinct(Loop(p, i))
  {
    var q := Loop(p, i);
    assert q[0] == q[i];
    forall j | 0 <= j < |q| - 1
      ensures q[j + 1] in g.includes[q[j]]
    {
      if j < i - 1 {
        assert p[j + 1 + 1] in g.includes[p[j + 1]];
      } else {
        assert q[j] == p[i] && p[0 + 1] in g.includes[p[0]];
      }
    }
  }

  /** If a path came back to its head, its second node would lie on a cycle. */
  lemma HeadIsNew(g: Graph, p: seq<Name>)
    requires IsPath(g, p) && |p| > 1 && Clean(g, p[1])
    ensures forall i :: 0 < i < |p| ==> p[i] != p[0]
  {
    forall i | 0 < i < |p|
      ensures p[i] != p[0]
    {
      if p[i] == p[0] {
        LoopIsPath(g, p, i);
      }
    }
  }

  lemma PathOkTail(g: Graph, p: seq<Name>)
    requires |p| > 1 && PathOk(g, p[1..]) && p[0] in g.ok && forall i :: 0 < i < |p| ==> p[i] != p[0]
    ensures PathOk(g, p)
  {
    assert forall i :: 0 < i < |p| ==> p[i] == p[1..][i - 1];
  }

  lemma CleanFromIncludes(g: Graph, k: Name)
    requires k in g.ok && k in g.includes && forall n :: n in g.includes[k] ==> Clean(g, n)
    ensures Clean(g, k)
  {
    forall p | IsPath(g, p) && p[0] == k
      ensures PathOk(g, p)
    {
      if |p| > 1 {
        assert p[0 + 1] in g.includes[p[0]];
        TailIsPath(g, p);
        HeadIsNew(g, p);
        PathOkTail(g, p);
      }
    }
  }

  lemma {:induction false} DistinctFits(p: seq<Name>, all: set<Name>)
    requires Distinct(p) && forall i :: 0 <= i < |p| ==> p[i] in all
    ensures |p| <= |all|
  {
    if p != [] {
      var last := p[|p| - 1];
      DistinctFits(p[..|p| - 1], all - {last});
    }
  }

  lemma PathExtends(g: Graph, p: seq<Name>, n: Name)
    requires ValidGraph(g) && IsPath(g, p) && n in g.includes[p[|p| - 1]]
    ensures IsPath(g, p + [n])
  {
    var q := p + [n];
    forall i | 0 <= i < |q| - 1
      ensures q[i + 1] in g.includes[q[i]]
    {
      if i < |p| - 1 {
        assert p[i + 1] in g.includes[p[i]];
      }
    }
  }

  // ---------- plain expansion ----------

  /** The text of a fragment, given the texts of what it includes. */
  function FragmentText(lib: Library, args: Args, k: Name, nested: Args): string
  {
    if k in lib && lib[k].Fragment? then Text(lib[k].content, args + nested) else ""
  }

  /** How a fragment's text comes from the texts of what it includes. */
  type Writer = (Name, Args) -> string

  /** Plain recursive expansion, without cache and without a guard, cut off at a depth. */
  function Expand(g: Graph, f: Writer, k: Name, depth: nat): Option<string>
    requires ValidGraph(g) && k in g.includes
    decreases depth, 0
  {
    if depth == 0 || k !in g.ok then None
    else if forall n {:trigger n in g.includes[k]} :: n in g.includes[k] ==> Expand(g, f, n, depth - 1).Some?
    then Some(f(k, TextsOf(g, f, g.includes[k], depth - 1)))
    else None
  }

  function TextsOf(g: Graph, f: Writer, names: set<Name>, depth: nat): Args
    requires ValidGraph(g) && names <= g.includes.Keys
    requires forall n {:trigger n in names} :: n in names ==> Expand(g, f, n, depth).Some?
    decreases depth, 1
  {
    map n | n in names :: Expand(g, f, n, depth).value
  }

  lemma ExpandUnfolds(g: Graph, f: Writer, k: Name, depth: nat) returns (nested: Args)
    requires ValidGraph(g) && k in g.includes && Expand(g, f, k, depth).Some?
    ensures depth > 0 && k in g.ok && nested.Keys == g.includes[k]
    ensures forall n :: n in nested ==> Expand(g, f, n, depth - 1) == Some(nested[n])
  {
    nested := map n | n in g.includes[k] :: Expand(g, f, n, depth - 1).value;
  }

  /** One step of expansion, given the texts of what the fragment includes. */
  lemma ExpandFolds(g: Graph, f: Writer, k: Name, depth: nat, nested: Args)
    requires ValidGraph(g) && k in g.includes && depth > 0 && k in g.ok && nested.Keys == g.includes[k]
    requires forall n :: n in nested ==> Expand(g, f, n, depth - 1) == Some(nested[n])
    ensures Expand(g, f, k, depth) == Some(f(k, nested))
  {
    assert TextsOf(g, f, g.includes[k], depth - 1) == nested;
  }

  lemma {:induction false} DeeperIsSame(g: Graph, f: Writer, k: Name, d: nat, e: nat)
    requires ValidGraph(g) && k in g.includes && d <= e && Expand(g, f, k, d).Some?
    ensures Expand(g, f, k, e) == Expand(g, f, k, d)
    decreases d
  {
    var nested := ExpandUnfolds(g, f, k, d);
    forall n | n in nested
      ensures Expand(g, f, n, e - 1) == Some(nested[n])
    {
      DeeperIsSame(g, f, n, d - 1, e - 1);
    }
    ExpandFolds(g, f, k, d, nested);
    ExpandFolds(g, f, k, e, nested);
  }

  lemma {:induction false} ExpandedIsClean(g: Graph, f: Writer, k: Name, d: nat)
    requires ValidGraph(g) && k in g.includes && Expand(g, f, k, d).Some?
    ensures Clean(g, k)
    decreases d
  {
    var nested := ExpandUnfolds(g, f, k, d);
    forall n | n in g.includes[k]
      ensures Clean(g, n)
    {
      ExpandedIsClean(g, f, n, d - 1);
    }
    CleanFromIncludes(g, k);
  }

  /** A clean fragment expands within a depth of the number of fragments: p is the way to it. */
  lemma {:induction false} CleanExpands(g: Graph, f: Writer, p: seq<Name>, depth: nat)
    requires ValidGraph(g) && IsPath(g, p) && Clean(g, p[0]) && |p| + depth == |g.includes.Keys| + 1
    ensures Expand(g, f, p[|p| - 1], depth).Some?
    decreases depth
  {
    var k := p[|p| - 1];
    assert PathOk(g, p);
    DistinctFits(p, g.includes.Keys);
    forall n | n in g.includes[k]
      ensures Expand(g, f, n, depth - 1).Some?
    {
      CleanDeeper(g, p, n);
      CleanExpands(g, f, p + [n], depth - 1);
      assert (p + [n])[|p|] == n;
    }
    ExpandFolds(g, f, k, depth, map n | n in g.includes[k] :: Expand(g, f, n, depth - 1).value);
  }

  /** A way on from a clean fragment fits into the number of fragments too. */
  lemma CleanDeeper(g: Graph, p: seq<Name>, n: Name)
    requires ValidGraph(g) && IsPath(g, p) && Clean(g, p[0]) && n in g.includes[p[|p| - 1]]
    ensures IsPath(g, p + [n]) && (p + [n])[0] == p[0] && |p| + 1 <= |g.includes.Keys|
  {
    PathExtends(g, p, n);
    assert PathOk(g, p + [n]);
    DistinctFits(p + [n], g.includes.Keys);
  }

  function WriterOf(lib: Library, args: Args): Writer
  {
    (k, nested) => FragmentText(lib, args, k, nested)
  }

  /** The text of a fragment by plain expansion, to whatever depth it takes. */
  function PlainText(lib: Library, args: Args, k: Name): Option<string>
    requires k in lib
  {
    Expand(GraphOf(lib, args.Keys), WriterOf(lib, args), k, |lib.Keys|)
  }

  /** Plain expansion succeeds exactly for the clean fragments. */
  lemma PlainWhenClean(lib: Library, args: Args, k: Name)
    requires k in lib
    ensures PlainText(lib, args, k).Some? <==> Clean(GraphOf(lib, args.Keys), k)
  {
    var g := GraphOf(lib, args.Keys);
    if PlainText(lib, args, k).Some? {
      ExpandedIsClean(g, WriterOf(lib, args), k, |lib.Keys|);
    }
    if Clean(g, k) {
      CleanExpands(g, WriterOf(lib, args), [k], |lib.Keys|);
    }
  }

  /** Going deeper than the number of fragments yields nothing more. */
  lemma DeepIsPlain(lib: Library, args: Args, k: Name, depth: nat)
    requires k in lib && depth >= |lib.Keys| && Expand(GraphOf(lib, args.Keys), WriterOf(lib, args), k, depth).Some?
    ensures PlainText(lib, args, k) == Expand(GraphOf(lib, args.Keys), WriterOf(lib, args), k, depth)
  {
    var g := GraphOf(lib, args.Keys);
    ExpandedIsClean(g, WriterOf(lib, args), k, depth);
    PlainWhenClean(lib, args, k);
    DeeperIsSame(g, WriterOf(lib, args), k, |lib.Keys|, depth);
  }

  /** One step of plain expansion, with the nested texts plain too: the equation that defines it. */
  lemma PlainStep(lib: Library, args: Args, k: Name, nested: Args)
    requires k in lib && FileOk(lib, args.Keys, k) && nested.Keys == Includes(lib, k)
    requires forall n :: n in nested ==> PlainText(lib, args, n) == Some(nested[n])
    ensures PlainText(lib, args, k) == Some(FragmentText(lib, args, k, nested))
  {
    ExpandFolds(GraphOf(lib, args.Keys), WriterOf(lib, args), k, |lib.Keys| + 1, nested);
    DeepIsPlain(lib, args, k, |lib.Keys| + 1);
  }

  // ---------- the resolver ----------

  class Cache {
    var texts: map<Name, string>

    constructor ()
      ensures texts == map[]
    {
      texts := map[];
    }
  }

  /** Only true texts are in the cache. */
  predicate Sound(lib: Library, args: Args, texts: map<Name, string>)
  {
    forall n :: n in texts ==> n in lib && PlainText(lib, args, n) == Some(texts[n])
  }

  datatype Error = Cycle(names: seq<Name>) | Missing(name: Name) | UnknownToken(name: Name)

  /** The stack is the way from the fragment the resolution began with. */
  predicate OnTheWay(g: Graph, stack: seq<Name>, key: Name)
  {
    ValidGraph(g) && key in g.includes && IsPath(g, stack + [key]) && Distinct(stack)
  }

  /** pycastle's `_resolve_shared_file`. The shared names of a fragment are visited in any order. An error means that
      the fragment the resolution began with is not clean. */
  method Resolve(lib: Library, args: Args, key: Name, cache: Cache, stack: seq<Name>) returns (r: Result<string, Error>)
    requires key in lib && OnTheWay(GraphOf(lib, args.Keys), stack, key) && Sound(lib, args, cache.texts)
    modifies cache
    ensures Sound(lib, args, cache.texts)
    ensures r.Ok? ==> PlainText(lib, args, key) == Some(r.value)
    ensures r.Err? ==> !Clean(GraphOf(lib, args.Keys), (stack + [key])[0])
    decreases |lib.Keys| - |stack|, 0
  {
    if key in cache.texts {
      return Ok(cache.texts[key]);
    }
    if key in stack {
      NotDistinct(GraphOf(lib, args.Keys), stack, key);
      return Err(Cycle(stack + [key]));
    }
    DistinctSnoc(GraphOf(lib, args.Keys), stack, key);
    if !lib[key].Fragment? && lib[key] != Absent(true) {
      NotClean(GraphOf(lib, args.Keys), stack + [key]);
      return Err(Missing(key));
    }
    if lib[key] == Absent(true) {
      PlainStep(lib, args, key, map[]);
      cache.texts := cache.texts[key := ""];
      return Ok("");
    }
    r := ResolveFragment(lib, args, key, cache, stack);
  }

  method ResolveFragment(lib: Library, args: Args, key: Name, cache: Cache, stack: seq<Name>) returns (r: Result<string, Error>)
    requires key in lib && lib[key].Fragment? && OnTheWay(GraphOf(lib, args.Keys), stack, key) && Sound(lib, args, cache.texts)
    requires Distinct(stack + [key]) && |stack| < |lib.Keys|
    modifies cache
    ensures Sound(lib, args, cache.texts)
    ensures r.Ok? ==> PlainText(lib, args, key) == Some(r.value)
    ensures r.Err? ==> !Clean(GraphOf(lib, args.Keys), (stack + [key])[0])
    decreases |lib.Keys| - |stack| - 1, 2
  {
    assert (stack + [key])[|stack|] == key;
    var nested, failed := ResolveAll(lib, args, key, cache, stack + [key]);
    if failed.Some? {
      return Err(failed.value);
    }
    r := RenderFragment(lib, args, key, nested);
    if r.Err? {
      NotClean(GraphOf(lib, args.Keys), stack + [key]);
    } else {
      cache.texts := cache.texts[key := r.value];
    }
  }

  /** A token is unknown when it is neither an argument nor a fragment. */
  lemma UnknownTokens(lib: Library, args: Args, key: Name, nested: Args)
    requires key in lib && lib[key].Fragment? && nested.Keys == Includes(lib, key)
    ensures Tokens(lib[key].content) - (args + nested).Keys == {} <==> FileOk(lib, args.Keys, key)
  {
    var tokens, known := Tokens(lib[key].content), args.Keys + lib.Keys;
    assert (args + nested).Keys == args.Keys + nested.Keys;
    assert tokens - (args + nested).Keys == tokens - known;
    assert forall n :: n in tokens ==> n in known || n in tokens - known;
  }

  /** The fragment's own text, once the fragments it includes are expanded. */
  method RenderFragment(lib: Library, args: Args, key: Name, nested: Args) returns (r: Result<string, Error>)
    requires key in lib && lib[key].Fragment? && nested.Keys == Includes(lib, key)
    requires forall n :: n in nested ==> PlainText(lib, args, n) == Some(nested[n])
    ensures r.Ok? ==> PlainText(lib, args, key) == Some(r.value)
    ensures r.Err? ==> key !in GraphOf(lib, args.Keys).ok
  {
    var content := lib[key].content;
    var unknown := Tokens(content) - (args + nested).Keys;
    UnknownTokens(lib, args, key, nested);
    if unknown != {} {
      var name :| name in unknown;
      return Err(UnknownToken(name));
    }
    PlainRendered(lib, args, key, nested);
    return Ok(Render(content, args + nested).value);
  }

  lemma PlainRendered(lib: Library, args: Args, key: Name, nested: Args)
    requires key in lib && lib[key].Fragment? && nested.Keys == Includes(lib, key) && FileOk(lib, args.Keys, key)
    requires forall n :: n in nested ==> PlainText(lib, args, n) == Some(nested[n])
    ensures
      var rendered := Render(lib[key].content, args + nested);
      rendered.Some? && PlainText(lib, args, key) == rendered
  {
    PlainStep(lib, args, key, nested);
    UnknownTokens(lib, args, key, nested);
    AllKnown(lib[key].content, args + nested);
  }

  lemma AllKnown(c: Content, args: Args)
    requires Tokens(c) - args.Keys == {}
    ensures Render(c, args) == Some(Text(c, args))
  {
    NeededAreTokens(c, args);
    assert forall n :: n in Tokens(c) ==> n in args.Keys || n in Tokens(c) - args.Keys;
  }

  method ResolveAll(lib: Library, args: Args, key: Name, cache: Cache, path: seq<Name>) returns (nested: Args, failed: Option<Error>)
    requires key in lib && IsPath(GraphOf(lib, args.Keys), path) && path[|path| - 1] == key && Distinct(path) && Sound(lib, args, cache.texts)
    modifies cache
    ensures Sound(lib, args, cache.texts)
    ensures failed.None? ==> nested.Keys == Includes(lib, key) && forall n :: n in nested ==> PlainText(lib, args, n) == Some(nested[n])
    ensures failed.Some? ==> !Clean(GraphOf(lib, args.Keys), path[0])
    decreases |lib.Keys| - |path|, 1
  {
    nested, failed := map[], None;
    var todo := Includes(lib, key);
    while todo != {}
      invariant todo <= Includes(lib, key) && nested.Keys == Includes(lib, key) - todo
      invariant Sound(lib, args, cache.texts)
      invariant forall n :: n in nested ==> PlainText(lib, args, n) == Some(nested[n])
    {
      var n :| n in todo;
      PathExtends(GraphOf(lib, args.Keys), path, n);
      var r := Resolve(lib, args, n, cache, path);
      if r.Err? {
        assert (path + [n])[0] == path[0];
        return nested, Some(r.error);
      }
      nested, todo := nested[n := r.value], todo - {n};
    }
  }

  lemma NotDistinct(g: Graph, stack: seq<Name>, key: Name)
    requires IsPath(g, stack + [key]) && key in stack
    ensures !Clean(g, (stack + [key])[0])
  {
    var path := stack + [key];
    var i :| 0 <= i < |stack| && stack[i] == key;
    assert path[i] == path[|stack|];
    assert !PathOk(g, path);
  }

  lemma DistinctSnoc(g: Graph, stack: seq<Name>, key: Name)
    requires IsPath(g, stack + [key]) && Distinct(stack) && key !in stack
    ensures Distinct(stack + [key]) && |stack| < |g.includes.Keys|
  {
    DistinctFits(stack + [key], g.includes.Keys);
  }

  lemma NotClean(g: Graph, path: seq<Name>)
    requires IsPath(g, path) && path[|path| - 1] !in g.ok
    ensures !Clean(g, path[0])
  {
    assert !PathOk(g, path);
  }

  // ---------- rendering a template ----------

  /** The two differ at most in values given for shared names. */
  predicate SameOutside(lib: Library, a: Args, b: Args)
  {
    forall n :: n in a.Keys + b.Keys && n !in lib ==> n in a && n in b && a[n] == b[n]
  }

  lemma SameGraph(lib: Library, a: Args, b: Args)
    requires SameOutside(lib, a, b)
    ensures GraphOf(lib, a.Keys) == GraphOf(lib, b.Keys)
  {
    assert a.Keys + lib.Keys == b.Keys + lib.Keys;
    assert forall k :: k in lib ==> FileOk(lib, a.Keys, k) == FileOk(lib, b.Keys, k);
  }

  lemma SameFragmentText(lib: Library, a: Args, b: Args, k: Name, nested: Args)
    requires k in lib && SameOutside(lib, a, b) && nested.Keys == Includes(lib, k)
    ensures FragmentText(lib, a, k, nested) == FragmentText(lib, b, k, nested)
  {
    if lib[k].Fragment? {
      TextAgrees(lib[k].content, a + nested, b + nested);
    }
  }

  /** The two writers agree on every fragment, given a text for each name it includes. */
  ghost predicate WriteSame(g: Graph, f: Writer, f': Writer)
  {
    forall k, nested: Args :: k in g.includes && nested.Keys == g.includes[k] ==> f(k, nested) == f'(k, nested)
  }

  lemma {:induction false} ExpandAcross(g: Graph, f: Writer, f': Writer, k: Name, depth: nat)
    requires ValidGraph(g) && k in g.includes && WriteSame(g, f, f') && Expand(g, f, k, depth).Some?
    ensures Expand(g, f', k, depth) == Expand(g, f, k, depth)
    decreases depth
  {
    var nested := ExpandUnfolds(g, f, k, depth);
    forall n | n in nested
      ensures Expand(g, f', n, depth - 1) == Some(nested[n])
    {
      ExpandAcross(g, f, f', n, depth - 1);
    }
    ExpandFolds(g, f, k, depth, nested);
    ExpandFolds(g, f', k, depth, nested);
  }

  /** Values given for shared names do not matter: a shared name that occurs is always replaced by its fragment. */
  lemma PlainTextAcross(lib: Library, a: Args, b: Args, k: Name)
    requires k in lib && SameOutside(lib, a, b)
    ensures PlainText(lib, b, k) == PlainText(lib, a, k)
  {
    var g, f, f' := GraphOf(lib, a.Keys), WriterOf(lib, a), WriterOf(lib, b);
    SameGraph(lib, a, b);
    forall n, nested: Args | n in g.includes && nested.Keys == g.includes[n]
      ensures f(n, nested) == f'(n, nested)
    {
      SameFragmentText(lib, a, b, n, nested);
    }
    if PlainText(lib, a, k).Some? {
      ExpandAcross(g, f, f', k, |lib.Keys|);
    }
    if PlainText(lib, b, k).Some? {
      ExpandAcross(g, f', f, k, |lib.Keys|);
    }
  }

  lemma SoundAcross(lib: Library, a: Args, b: Args, texts: map<Name, string>)
    requires SameOutside(lib, a, b) && Sound(lib, a, texts)
    ensures Sound(lib, b, texts)
  {
    forall n | n in texts
      ensures PlainText(lib, b, n) == Some(texts[n])
    {
      PlainTextAcross(lib, a, b, n);
    }
  }

  predicate AllPlain(lib: Library, args: Args, names: set<Name>)
  {
    forall n {:trigger n in names} :: n in names ==> n in lib && PlainText(lib, args, n).Some?
  }

  function PlainTexts(lib: Library, args: Args, names: set<Name>): Args
    requires AllPlain(lib, args, names)
  {
    map n | n in names :: PlainText(lib, args, n).value
  }

  /** The template with every shared name replaced by its plain text. */
  function TemplateText(lib: Library, args: Args, c: Content): Option<string>
  {
    var names := Tokens(c) * lib.Keys;
    if AllPlain(lib, args, names) then Render(c, args + PlainTexts(lib, args, names)) else None
  }

  /** pycastle's `render`, after preprocessing: one cache for all shared names, and arguments that grow with each of
      them. Neither matters, and neither does the order in which the names are visited. */
  method RenderTemplate(lib: Library, args: Args, c: Content) returns (text: Option<string>)
    ensures text == TemplateText(lib, args, c)
  {
    var all, resolved := ResolveNames(lib, args, c);
    text := if resolved then Render(c, all) else None;
  }

  lemma TemplateTextIs(lib: Library, args: Args, c: Content, done: Args)
    requires SoFar(lib, args, c, {}, done)
    ensures TemplateText(lib, args, c) == Render(c, args + done)
  {
    PlainTextsAre(lib, args, Tokens(c) * lib.Keys, done);
  }

  lemma PlainTextsAre(lib: Library, args: Args, names: set<Name>, done: Args)
    requires done.Keys == names && forall n {:trigger n in done} :: n in done ==> n in lib && PlainText(lib, args, n) == Some(done[n])
    ensures AllPlain(lib, args, names) && PlainTexts(lib, args, names) == done
  {
  }

  lemma NoTemplateText(lib: Library, args: Args, c: Content, n: Name)
    requires n in Tokens(c) * lib.Keys && PlainText(lib, args, n).None?
    ensures TemplateText(lib, args, c) == None
  {
  }

  /** What has been resolved so far. */
  predicate SoFar(lib: Library, args: Args, c: Content, todo: set<Name>, done: Args)
  {
    && todo <= Tokens(c) * lib.Keys && done.Keys == Tokens(c) * lib.Keys - todo
    && forall n {:trigger n in done} :: n in done ==> n in lib && PlainText(lib, args, n) == Some(done[n])
  }

  method ResolveNames(lib: Library, args: Args, c: Content) returns (all: Args, resolved: bool)
    ensures TemplateText(lib, args, c) == if resolved then Render(c, all) else None
  {
    all := args;
    var cache := new Cache();
    var todo := Tokens(c) * lib.Keys;
    ghost var done: Args := map[];
    assert args + done == args;
    while todo != {}
      invariant SoFar(lib, args, c, todo, done) && all == args + done && fresh(cache)
      invariant Sound(lib, all, cache.texts)
    {
      var n :| n in todo;
      InScope(lib, args, c, todo, done, n);
      var r := ResolveOne(lib, args, all, n, cache);
      if r.None? {
        NoTemplateText(lib, args, c, n);
        return all, false;
      }
      OneMore(lib, args, c, todo, done, n, r.value);
      SoundAcross(lib, all, all[n := r.value], cache.texts);
      all, todo, done := all[n := r.value], todo - {n}, done[n := r.value];
    }
    TemplateTextIs(lib, args, c, done);
    return all, true;
  }

  lemma InScope(lib: Library, args: Args, c: Content, todo: set<Name>, done: Args, n: Name)
    requires SoFar(lib, args, c, todo, done) && n in todo
    ensures n in lib && n in Tokens(c) * lib.Keys && SameOutside(lib, args + done, args)
  {
  }

  lemma OneMore(lib: Library, args: Args, c: Content, todo: set<Name>, done: Args, n: Name, text: string)
    requires SoFar(lib, args, c, todo, done) && n in todo && n in lib && PlainText(lib, args, n) == Some(text)
    ensures SoFar(lib, args, c, todo - {n}, done[n := text])
    ensures (args + done)[n := text] == args + done[n := text]
    ensures SameOutside(lib, args + done, (args + done)[n := text])
  {
    MoreArgs(args, done, n, text);
    MoreKeys(Tokens(c) * lib.Keys, todo, done, n, text);
  }

  lemma MoreArgs(args: Args, done: Args, n: Name, text: string)
    ensures (args + done)[n := text] == args + done[n := text]
    ensures forall m :: m != n ==> (m in done[n := text] <==> m in done)
  {
  }

  lemma MoreKeys(names: set<Name>, todo: set<Name>, done: Args, n: Name, text: string)
    requires todo <= names && done.Keys == names - todo && n in todo
    ensures done[n := text].Keys == names - (todo - {n})
  {
  }

  /** One shared name, resolved with the arguments as they have grown so far. */
  method ResolveOne(lib: Library, args: Args, all: Args, n: Name, cache: Cache) returns (text: Option<string>)
    requires n in lib && SameOutside(lib, all, args) && Sound(lib, all, cache.texts)
    modifies cache
    ensures Sound(lib, all, cache.texts)
    ensures text == PlainText(lib, args, n)
  {
    assert [] + [n] == [n];
    var r := Resolve(lib, all, n, cache, []);
    PlainTextAcross(lib, all, args, n);
    PlainWhenClean(lib, all, n);
    text := if r.Ok? then Some(r.value) else None;
  }

  // ---------- shell expressions ----------

  /** A match in the prompt, and the output that takes its place. */
  datatype Splice = Splice(start: nat, end: nat, output: string)

  /** The output without the newlines at its end. */
  function Chopped(out: string): (r: string)
    ensures r <= out && (r != "" ==> r[|r| - 1] != '\n') && forall i :: |r| <= i < |out| ==> out[i] == '\n'
  {
    if out != "" && out[|out| - 1] == '\n' then Chopped(out[..|out| - 1]) else out
  }

  /** The matches, in order, do not overlap and lie between these positions. */
  predicate InOrder(splices: seq<Splice>, from: nat, to: nat)
  {
    && from <= to
    && (forall i :: 0 <= i < |splices| ==> from <= splices[i].start <= splices[i].end <= to)
    && forall i, j :: 0 <= i < j < |splices| ==> splices[i].end <= splices[j].start
  }

  /** The prompt from a position on, each match replaced by its output. */
  function Replaced(prompt: string, splices: seq<Splice>, from: nat): string
    requires InOrder(splices, from, |prompt|)
  {
    if splices == [] then prompt[from..]
    else prompt[from..splices[0].start] + Chopped(splices[0].output) + Replaced(prompt, splices[1..], splices[0].end)
  }

  lemma {:induction false} ReplacedFrom(prompt: string, splices: seq<Splice>, from: nat, to: nat)
    requires from <= to && InOrder(splices, to, |prompt|)
    ensures Replaced(prompt, splices, from) == prompt[from..to] + Replaced(prompt, splices, to)
  {
    if splices == [] {
      assert prompt[from..] == prompt[from..to] + prompt[to..];
    } else {
      var gap, out, rest := prompt[to..splices[0].start], Chopped(splices[0].output), Replaced(prompt, splices[1..], splices[0].end);
      assert prompt[from..splices[0].start] == prompt[from..to] + gap;
      assert prompt[from..to] + gap + out + rest == prompt[from..to] + (gap + out + rest);
    }
  }

  /** pycastle's `_preprocess`: splicing from the last match to the first never shifts a match still to come. */
  method Preprocess(prompt: string, splices: seq<Splice>) returns (text: string)
    requires InOrder(splices, 0, |prompt|)
    ensures text == Replaced(prompt, splices, 0)
  {
    text := prompt;
    var i := |splices|;
    while i > 0
      invariant 0 <= i <= |splices|
      invariant SplicedFrom(prompt, splices, i, text)
    {
      ghost var before := text;
      i := i - 1;
      text := text[..splices[i].start] + Chopped(splices[i].output) + text[splices[i].end..];
      SpliceOne(prompt, splices, i, before);
    }
    AllSpliced(prompt, splices, text);
  }

  /** Where the next match to be replaced ends at the latest. */
  function Front(prompt: string, splices: seq<Splice>, i: nat): nat
    requires i <= |splices|
  {
    if i < |splices| then splices[i].start else |prompt|
  }

  /** The matches from the i-th on have been replaced, and what is in front of them is as it was. */
  predicate SplicedFrom(prompt: string, splices: seq<Splice>, i: nat, text: string)
    requires i <= |splices|
  {
    var from := Front(prompt, splices, i);
    && from <= |text| && InOrder(splices[i..], from, |prompt|) && from <= |prompt|
    && text[..from] == prompt[..from] && text[from..] == Replaced(prompt, splices[i..], from)
  }

  lemma SpliceOne(prompt: string, splices: seq<Splice>, i: nat, before: string)
    requires i < |splices| && InOrder(splices, 0, |prompt|) && SplicedFrom(prompt, splices, i + 1, before)
    ensures splices[i].start <= splices[i].end <= |before|
    ensures SplicedFrom(prompt, splices, i, before[..splices[i].start] + Chopped(splices[i].output) + before[splices[i].end..])
  {
    var from := Front(prompt, splices, i + 1);
    assert before == prompt[..from] + before[from..];
    SpliceStep(prompt, splices, i, from, before[from..], before[..splices[i].start] + Chopped(splices[i].output) + before[splices[i].end..]);
  }

  lemma AllSpliced(prompt: string, splices: seq<Splice>, text: string)
    requires InOrder(splices, 0, |prompt|) && SplicedFrom(prompt, splices, 0, text)
    ensures text == Replaced(prompt, splices, 0)
  {
    var from := Front(prompt, splices, 0);
    assert splices[0..] == splices;
    ReplacedFrom(prompt, splices, 0, from);
    assert text == text[..from] + text[from..];
  }

  lemma SpliceStep(prompt: string, splices: seq<Splice>, i: nat, from: nat, rest: string, text: string)
    requires i < |splices| && InOrder(splices, 0, |prompt|) && splices[i].end <= from <= |prompt|
    requires InOrder(splices[i + 1..], from, |prompt|) && rest == Replaced(prompt, splices[i + 1..], from)
    requires text == (prompt[..from] + rest)[..splices[i].start] + Chopped(splices[i].output) + (prompt[..from] + rest)[splices[i].end..]
    ensures InOrder(splices[i..], splices[i].start, |prompt|)
    ensures splices[i].start <= |text| && text[..splices[i].start] == prompt[..splices[i].start]
    ensures text[splices[i].start..] == Replaced(prompt, splices[i..], splices[i].start)
  {
    var s := splices[i];
    CutAndPut(prompt, s.start, s.end, from, rest, Chopped(s.output), text);
    ReplacedFrom(prompt, splices[i + 1..], s.end, from);
    ReplacedAt(prompt, splices, i);
  }

  lemma CutAndPut(prompt: string, start: nat, end: nat, from: nat, rest: string, out: string, text: string)
    requires start <= end <= from <= |prompt|
    requires text == (prompt[..from] + rest)[..start] + out + (prompt[..from] + rest)[end..]
    ensures start <= |text| && text[..start] == prompt[..start] && text[start..] == out + (prompt[end..from] + rest)
  {
    assert (prompt[..from] + rest)[end..] == prompt[end..from] + rest;
    assert (prompt[..from] + rest)[..start] == prompt[..start];
  }

  lemma ReplacedAt(prompt: string, splices: seq<Splice>, i: nat)
    requires i < |splices| && InOrder(splices, 0, |prompt|)
    ensures InOrder(splices[i..], splices[i].start, |prompt|) && InOrder(splices[i + 1..], splices[i].end, |prompt|)
    ensures Replaced(prompt, splices[i..], splices[i].start) == Chopped(splices[i].output) + Replaced(prompt, splices[i + 1..], splices[i].end)
  {
    var r := splices[i..];
    OrderedFrom(prompt, splices, i);
    assert r[0] == splices[i] && r[1..] == splices[i + 1..];
    ReplacedHead(prompt, r);
  }

  lemma OrderedFrom(prompt: string, splices: seq<Splice>, i: nat)
    requires i < |splices| && InOrder(splices, 0, |prompt|)
    ensures InOrder(splices[i..], splices[i].start, |prompt|) && InOrder(splices[i + 1..], splices[i].end, |prompt|)
  {
    var r, rest := splices[i..], splices[i + 1..];
    assert forall j :: 0 <= j < |r| ==> r[j] == splices[i + j];
    assert forall j :: 0 <= j < |rest| ==> rest[j] == splices[i + 1 + j];
  }

  lemma ReplacedHead(prompt: string, r: seq<Splice>)
    requires r != [] && InOrder(r, r[0].start, |prompt|) && InOrder(r[1..], r[0].end, |prompt|)
    ensures Replaced(prompt, r, r[0].start) == Chopped(r[0].output) + Replaced(prompt, r[1..], r[0].end)
  {
    NothingInFront(prompt[r[0].start..r[0].start], Chopped(r[0].output), Replaced(prompt, r[1..], r[0].end));
  }

  lemma NothingInFront(gap: string, a: string, b: string)
    requires gap == ""
    ensures gap + a + b == a + b
  {
  }
}
