/**
 Resolving type aliases by substitution closures (tools/anti-slop/src/shared/type-alias-resolution.ts).
 A node knows the chain of its ancestors, itself first, and the type parameters in scope.
 */
module TypeAlias {
  import opened Common

  type NodeId = nat
  type AliasId = nat

  datatype Site = Site(chain: seq<NodeId>, parameters: set<string>)

  /** A type: a reference, to a plain name or to a qualified one, or any other node with its parts. */
  datatype Type =
    | Reference(name: Option<string>, site: Site, arguments: seq<Type>)
    | Other(kind: string, parts: seq<Type>)

  datatype Parameter = Parameter(name: string, default: Option<Type>)
  datatype Alias = Alias(parameters: seq<Parameter>, annotation: Type)
  datatype Binding = Binding(scope: NodeId, alias: Option<AliasId>)
  datatype Environment = Environment(aliases: map<AliasId, Alias>, bindings: map<string, seq<Binding>>)

  /** Names bound to a type together with the substitutions that type is read under; the last binding first. */
  datatype Scope = Empty | Bind(name: string, value: Type, inner: Scope, rest: Scope)

  // ---------------------------------------------------------------- which alias a name means

  function Distance(chain: seq<NodeId>, scope: NodeId): Option<nat> {
    if chain == [] then None
    else if chain[0] == scope then Some(0)
    else
      match Distance(chain[1..], scope)
      case None => None
      case Some(d) => Some(d + 1)
  }

  /** ancestorDistance: up the chain until the scope is met. */
  method AncestorDistance(scope: NodeId, chain: seq<NodeId>) returns (d: Option<nat>)
    ensures d == Distance(chain, scope)
  {
    var distance := 0;
    while distance < |chain|
      invariant distance <= |chain|
      invariant Distance(chain, scope) == match Distance(chain[distance..], scope) case None => None case Some(e) =>
                Some(e + distance)
    {
      if chain[distance] == scope {
        return Some(distance);
      }
      distance := distance + 1;
    }
    d := None;
  }

  function Sooner(a: Option<nat>, b: Option<nat>): Option<nat> {
    if a.None? then b else if b.None? then a else Some(Min(a.value, b.value))
  }

  function LeastDistance(candidates: seq<Binding>, chain: seq<NodeId>): Option<nat> {
    if candidates == [] then None
    else Sooner(LeastDistance(candidates[..|candidates| - 1], chain),
        Distance(chain, candidates[|candidates| - 1].scope))
  }

  function AtDistance(candidates: seq<Binding>, chain: seq<NodeId>, d: nat): seq<Binding> {
    if candidates == [] then []
    else
      var last := candidates[|candidates| - 1];
      AtDistance(candidates[..|candidates| - 1], chain, d) + if Distance(chain, last.scope) == Some(d) then [last]
          else []
  }

  function Nearest(candidates: seq<Binding>, chain: seq<NodeId>): seq<Binding> {
    match LeastDistance(candidates, chain)
    case None => []
    case Some(d) => AtDistance(candidates, chain, d)
  }

  lemma {:induction false} LeastIsLeast(candidates: seq<Binding>, chain: seq<NodeId>)
    ensures forall b | b in candidates && Distance(chain, b.scope).Some? ::
              && LeastDistance(candidates, chain).Some?
              && LeastDistance(candidates, chain).value <= Distance(chain, b.scope).value
    ensures LeastDistance(candidates, chain).Some? ==>
              exists b | b in candidates :: Distance(chain, b.scope) == LeastDistance(candidates, chain)
  {
    if candidates != [] {
      var n := |candidates| - 1;
      LeastIsLeast(candidates[..n], chain);
      assert candidates == candidates[..n] + [candidates[n]];
      assert candidates[n] in candidates;
    }
  }

  lemma {:induction false} AtDistanceIsFilter(candidates: seq<Binding>, chain: seq<NodeId>, d: nat, b: Binding)
    ensures b in AtDistance(candidates, chain, d) <==> b in candidates && Distance(chain, b.scope) == Some(d)
  {
    if candidates != [] {
      var n := |candidates| - 1;
      AtDistanceIsFilter(candidates[..n], chain, d, b);
      assert candidates == candidates[..n] + [candidates[n]];
    }
  }

  /**
   A binding is among the nearest exactly when its scope encloses the use and no other candidate's does so
   more closely.
   */
  lemma NearestAreTheClosest(candidates: seq<Binding>, chain: seq<NodeId>, b: Binding)
    ensures b in Nearest(candidates, chain) <==>
              && b in candidates && Distance(chain, b.scope).Some?
              && forall other | other in candidates && Distance(chain, other.scope).Some? ::
                   Distance(chain, b.scope).value <= Distance(chain, other.scope).value
  {
    LeastIsLeast(candidates, chain);
    if LeastDistance(candidates, chain).Some? {
      AtDistanceIsFilter(candidates, chain, LeastDistance(candidates, chain).value, b);
    }
  }

  lemma {:induction false} NoneBelowLeast(candidates: seq<Binding>, chain: seq<NodeId>, d: nat)
    requires LeastDistance(candidates, chain).Some? ==> d < LeastDistance(candidates, chain).value
    ensures AtDistance(candidates, chain, d) == []
  {
    if candidates != [] {
      NoneBelowLeast(candidates[..|candidates| - 1], chain, d);
    }
  }

  /** nearestTypeBindings: one pass that keeps the closest candidates seen so far, in order. */
  method NearestTypeBindings(candidates: seq<Binding>, chain: seq<NodeId>) returns (nearest: seq<Binding>)
    ensures nearest == Nearest(candidates, chain)
  {
    nearest := [];
    var least: Option<nat> := None;
    var i := 0;
    while i < |candidates|
      invariant i <= |candidates|
      invariant least == LeastDistance(candidates[..i], chain)
      invariant nearest == Nearest(candidates[..i], chain)
    {
      assert candidates[..i + 1][..i] == candidates[..i];
      var distance := AncestorDistance(candidates[i].scope, chain);
      if distance.Some? && !(least.Some? && distance.value > least.value) {
        if least == distance {
          nearest := nearest + [candidates[i]];
        } else {
          NoneBelowLeast(candidates[..i], chain, distance.value);
          least := distance;
          nearest := [candidates[i]];
        }
      }
      i := i + 1;
    }
    assert candidates[..i] == candidates;
  }

  /** visibleTypeAlias. */
  function VisibleAlias(e: Environment, name: string, site: Site): Option<AliasId> {
    if name in site.parameters || name !in e.bindings then None
    else
      var nearest := Nearest(e.bindings[name], site.chain);
      if |nearest| == 1 then nearest[0].alias else None
  }

  // ---------------------------------------------------------------- substitutions

  datatype Closure = Closure(value: Type, scope: Scope)

  function Depth(s: Scope): nat {
    match s
    case Empty => 0
    case Bind(_, _, inner, rest) => Max(Depth(inner) + 1, Depth(rest))
  }

  function Lookup(s: Scope, name: string): (c: Option<Closure>)
    ensures c.Some? ==> Depth(c.value.scope) < Depth(s)
  {
    match s
    case Empty => None
    case Bind(n, value, inner, rest) => if n == name then Some(Closure(value, inner)) else Lookup(rest, name)
  }

  /** aliasSubstitutions, from parameter i on; next is what the earlier ones have added to base. */
  function Substitute(parameters: seq<Parameter>, arguments: seq<Type>, base: Scope, next: Scope, i: nat): Option<Scope>
    decreases |parameters| - i
  {
    if i >= |parameters| then Some(next)
    else if i < |arguments| then
      Substitute(parameters, arguments, base, Bind(parameters[i].name, arguments[i], base, next), i + 1)
    else if parameters[i].default.Some? then
      Substitute(parameters, arguments, base, Bind(parameters[i].name, parameters[i].default.value, next, next), i + 1)
    else None
  }

  method AliasSubstitutions(alias: Alias, arguments: seq<Type>, base: Scope) returns (next: Option<Scope>)
    ensures next == Substitute(alias.parameters, arguments, base, base, 0)
  {
    var scope := base;
    var i := 0;
    while i < |alias.parameters|
      invariant i <= |alias.parameters|
      invariant Substitute(alias.parameters, arguments, base, base, 0) ==
                Substitute(alias.parameters, arguments, base, scope, i)
    {
      var parameter := alias.parameters[i];
      var argument := if i < |arguments| then Some(arguments[i]) else parameter.default;
      if argument.None? {
        return None;
      }
      scope := Bind(parameter.name, argument.value, if i < |arguments| then base else scope, scope);
      i := i + 1;
    }
    next := Some(scope);
  }

  /** It gives up exactly when some parameter has neither an argument nor a default. */
  lemma {:induction false} SubstituteFails(parameters: seq<Parameter>, arguments: seq<Type>, base: Scope, next: Scope,
      i: nat)
    ensures Substitute(parameters, arguments, base, next, i).None? <==>
            exists k :: Max(i, |arguments|) <= k < |parameters| && parameters[k].default.None?
    decreases |parameters| - i
  {
    if i < |parameters| {
      if i < |arguments| {
        SubstituteFails(parameters, arguments, base, Bind(parameters[i].name, arguments[i], base, next), i + 1);
      } else if parameters[i].default.Some? {
        SubstituteFails(parameters, arguments, base, Bind(parameters[i].name, parameters[i].default.value, next, next),
            i + 1);
      }
    }
  }

  ghost predicate DistinctNames(parameters: seq<Parameter>) {
    forall i, j | 0 <= i < j < |parameters| :: parameters[i].name != parameters[j].name
  }

  /** Names that are not parameters keep the meaning they had. */
  lemma {:induction false} SubstituteKeeps(parameters: seq<Parameter>, arguments: seq<Type>, base: Scope, next: Scope,
      i: nat, name: string)
    requires Substitute(parameters, arguments, base, next, i).Some?
    requires forall k | i <= k < |parameters| :: parameters[k].name != name
    ensures Lookup(Substitute(parameters, arguments, base, next, i).value, name) == Lookup(next, name)
    decreases |parameters| - i
  {
    if i < |parameters| {
      var closure := if i < |arguments| then Bind(parameters[i].name, arguments[i], base, next)
                     else Bind(parameters[i].name, parameters[i].default.value, next, next);
      SubstituteKeeps(parameters, arguments, base, closure, i + 1, name);
    }
  }

  /** An explicit argument is read where the reference stands: it sees none of the alias's own parameters. */
  lemma {:induction false} ArgumentsAreClosed(parameters: seq<Parameter>, arguments: seq<Type>, base: Scope,
      next: Scope, i: nat, k: nat)
    requires Substitute(parameters, arguments, base, next, i).Some? && DistinctNames(parameters)
    requires i <= k < |parameters| && k < |arguments|
    ensures Lookup(Substitute(parameters, arguments, base, next, i).value, parameters[k].name) ==
              Some(Closure(arguments[k], base))
    decreases |parameters| - i
  {
    var next' := Bind(parameters[i].name, arguments[i], base, next);
    if i < k {
      ArgumentsAreClosed(parameters, arguments, base, next', i + 1, k);
    } else {
      SubstituteKeeps(parameters, arguments, base, next', i + 1, parameters[k].name);
    }
  }

  /** A default is read where the parameter stands: it sees exactly the parameters before its own. */
  lemma {:induction false} DefaultsSeeEarlierParameters(parameters: seq<Parameter>, arguments: seq<Type>, base: Scope,
      next: Scope, i: nat, k: nat)
    requires Substitute(parameters, arguments, base, next, i).Some? && DistinctNames(parameters)
    requires i <= k < |parameters| && |arguments| <= k
    ensures parameters[k].default.Some? && Substitute(parameters[..k], arguments, base, next, i).Some?
    ensures Lookup(Substitute(parameters, arguments, base, next, i).value, parameters[k].name) ==
              Some(Closure(parameters[k].default.value, Substitute(parameters[..k], arguments, base, next, i).value))
    decreases |parameters| - i
  {
    var next' := if i < |arguments| then Bind(parameters[i].name, arguments[i], base, next)
                 else Bind(parameters[i].name, parameters[i].default.value, next, next);
    if i < k {
      DefaultsSeeEarlierParameters(parameters, arguments, base, next', i + 1, k);
    } else {
      SubstituteKeeps(parameters, arguments, base, next', i + 1, parameters[k].name);
    }
  }

  // ---------------------------------------------------------------- evaluation

  /** What evaluate is called with. */
  datatype Frame = Frame(current: Type, scope: Scope, resolving: set<AliasId>)

  /** What a matcher does with a type: answer, or ask about a type first and go on from there. */
  datatype Ask = Answer(matches: bool) | Child(part: Type, yes: Ask, no: Ask)

  type Matcher = Type -> Ask

  function Parts(t: Type): seq<Type> {
    match t
    case Reference(_, _, arguments) => arguments
    case Other(_, parts) => parts
  }

  function Size(t: Type): nat
    decreases t
  {
    match t
    case Reference(_, _, arguments) => 1 + Sizes(arguments)
    case Other(_, parts) => 1 + Sizes(parts)
  }

  function Sizes(ts: seq<Type>): nat
    decreases ts
  {
    if ts == [] then 0 else Size(ts[0]) + Sizes(ts[1..])
  }

  lemma {:induction false} PartOfSizes(ts: seq<Type>, t: Type)
    requires t in ts
    ensures Size(t) <= Sizes(ts)
  {
    if t != ts[0] {
      PartOfSizes(ts[1..], t);
    }
  }

  /** A proper subterm. */
  predicate Inside(part: Type, t: Type)
    decreases t
  {
    match t
    case Reference(_, _, arguments) => exists i | 0 <= i < |arguments| ::
        part == arguments[i] || Inside(part, arguments[i])
    case Other(_, parts) => exists i | 0 <= i < |parts| :: part == parts[i] || Inside(part, parts[i])
  }

  lemma {:induction false} InsideIsSmaller(part: Type, t: Type)
    requires Inside(part, t)
    ensures Size(part) < Size(t)
    decreases t
  {
    var i :| 0 <= i < |Parts(t)| && (part == Parts(t)[i] || Inside(part, Parts(t)[i]));
    PartOfSizes(Parts(t), Parts(t)[i]);
    if part != Parts(t)[i] {
      InsideIsSmaller(part, Parts(t)[i]);
    }
  }

  predicate AsksInside(a: Ask, t: Type) {
    a.Child? ==> Inside(a.part, t) && AsksInside(a.yes, t) && AsksInside(a.no, t)
  }

  /** The matcher asks only about subterms of the type it is given. */
  ghost predicate OnlySubterms(m: Matcher) {
    forall t :: AsksInside(m(t), t)
  }

  /** The call evaluate makes instead of the matcher: into a substitution, or into a visible alias. */
  function Resolve(e: Environment, f: Frame): Option<Frame> {
    if !f.current.Reference? || f.current.name.None? then None
    else
      var name := f.current.name.value;
      var found := Lookup(f.scope, name);
      if found.Some? && f.current.arguments == [] then Some(Frame(found.value.value, found.value.scope, f.resolving))
      else
        var alias := VisibleAlias(e, name, f.current.site);
        if alias.None? || alias.value !in e.aliases || alias.value in f.resolving then None
        else
          var next := Substitute(e.aliases[alias.value].parameters, f.current.arguments, f.scope, f.scope, 0);
          if next.None? then None
          else Some(Frame(e.aliases[alias.value].annotation, next.value, f.resolving + {alias.value}))
  }

  function Unresolved(e: Environment, f: Frame): nat {
    |e.aliases.Keys - f.resolving|
  }

  lemma ResolveDecreases(e: Environment, f: Frame)
    requires Resolve(e, f).Some?
    ensures var g := Resolve(e, f).value;
            Unresolved(e, g) < Unresolved(e, f) || (g.resolving == f.resolving && Depth(g.scope) < Depth(f.scope))
  {
    var g := Resolve(e, f).value;
    if g.resolving != f.resolving {
      var name := f.current.name.value;
      var alias := VisibleAlias(e, name, f.current.site).value;
      assert e.aliases.Keys - g.resolving == (e.aliases.Keys - f.resolving) - {alias};
    }
  }

  /** resolvedTypeMatches' evaluate: it terminates on every program, recursive aliases included. */
  function Evaluate(e: Environment, m: Matcher, f: Frame): bool
    requires OnlySubterms(m)
    decreases Unresolved(e, f), Depth(f.scope), Size(f.current), 1
  {
    if Resolve(e, f).Some? then
      ResolveDecreases(e, f);
      Evaluate(e, m, Resolve(e, f).value)
    else Follow(e, m, f, m(f.current))
  }

  /** The matcher's own run, asking evaluate about subterms under the same substitutions. */
  function Follow(e: Environment, m: Matcher, f: Frame, a: Ask): bool
    requires OnlySubterms(m) && AsksInside(a, f.current)
    decreases Unresolved(e, f), Depth(f.scope), Size(f.current), 0, a
  {
    match a
    case Answer(b) => b
    case Child(part, yes, no) =>
      InsideIsSmaller(part, f.current);
      if Evaluate(e, m, f.(current := part)) then Follow(e, m, f, yes) else Follow(e, m, f, no)
  }

  // ---------------------------------------------------------------- what evaluation means

  /** The nearest enclosing declarations of the name are one, an alias, and no type parameter hides it. */
  ghost predicate Means(e: Environment, name: string, site: Site, alias: AliasId) {
    && name !in site.parameters
    && name in e.bindings
    && exists b | b in e.bindings[name] ::
         && b.alias == Some(alias)
         && Nearest(e.bindings[name], site.chain) == [b]
  }

  /** Every parameter has an argument or a default. */
  predicate Applies(parameters: seq<Parameter>, arguments: seq<Type>) {
    forall k | |arguments| <= k < |parameters| :: parameters[k].default.Some?
  }

  /** A plain name bound by a substitution evaluates as the type it is bound to, where that type was read. */
  lemma BoundNameEvaluatesAsItsType(e: Environment, m: Matcher, name: string, site: Site, scope: Scope,
      resolving: set<AliasId>)
    requires OnlySubterms(m) && Lookup(scope, name).Some?
    ensures var bound := Lookup(scope, name).value;
            Evaluate(e, m, Frame(Reference(Some(name), site, []), scope, resolving)) ==
            Evaluate(e, m, Frame(bound.value, bound.scope, resolving))
  {
  }

  /** A reference to a visible alias that is not being resolved evaluates as its annotation, substituted. */
  lemma AliasEvaluatesAsItsAnnotation(e: Environment, m: Matcher, name: string, f: Frame, a: AliasId)
    requires OnlySubterms(m) && f.current.Reference? && f.current.name == Some(name)
    requires Lookup(f.scope, name).None? || f.current.arguments != []
    requires Means(e, name, f.current.site, a) && a in e.aliases && a !in f.resolving
    requires Applies(e.aliases[a].parameters, f.current.arguments)
    ensures var next := Substitute(e.aliases[a].parameters, f.current.arguments, f.scope, f.scope, 0);
            && next.Some?
            && Evaluate(e, m, f) == Evaluate(e, m, Frame(e.aliases[a].annotation, next.value, f.resolving + {a}))
  {
    SubstituteFails(e.aliases[a].parameters, f.current.arguments, f.scope, f.scope, 0);
    assert VisibleAlias(e, name, f.current.site) == Some(a);
  }

  /** What is left to the matcher as it stands: all that is no plain name with a meaning to put in its place. */
  ghost predicate IsOpaque(e: Environment, f: Frame) {
    !f.current.Reference? || f.current.name.None? ||
        var name := f.current.name.value;
        && (Lookup(f.scope, name).None? || f.current.arguments != [])
        && forall a | a in e.aliases && a !in f.resolving && Means(e, name, f.current.site, a) ::
             !Applies(e.aliases[a].parameters, f.current.arguments)
  }

  lemma OpaqueDoesNotResolve(e: Environment, f: Frame)
    ensures IsOpaque(e, f) <==> Resolve(e, f).None?
  {
    if f.current.Reference? && f.current.name.Some? {
      var name := f.current.name.value;
      var alias := VisibleAlias(e, name, f.current.site);
      if alias.Some? {
        var nearest := Nearest(e.bindings[name], f.current.site.chain);
        NearestAreTheClosest(e.bindings[name], f.current.site.chain, nearest[0]);
        assert nearest == [nearest[0]];
        assert Means(e, name, f.current.site, alias.value);
        if alias.value in e.aliases {
          SubstituteFails(e.aliases[alias.value].parameters, f.current.arguments, f.scope, f.scope, 0);
        }
      }
    }
  }

  /** The matcher's run when asking gives these answers. */
  ghost function Run(a: Ask, truth: Type -> bool): bool {
    if a.Answer? then a.matches else if truth(a.part) then Run(a.yes, truth) else Run(a.no, truth)
  }

  lemma {:induction false} FollowRuns(e: Environment, m: Matcher, f: Frame, a: Ask, truth: Type -> bool)
    requires OnlySubterms(m) && AsksInside(a, f.current)
    requires forall t | Inside(t, f.current) :: truth(t) == Evaluate(e, m, f.(current := t))
    ensures Follow(e, m, f, a) == Run(a, truth)
  {
    match a
    case Answer(_) =>
    case Child(part, yes, no) =>
      assert truth(part) == Evaluate(e, m, f.(current := part));
      FollowRuns(e, m, f, yes, truth);
      FollowRuns(e, m, f, no, truth);
  }

  /**
   A type left to the matcher evaluates to what the matcher answers, when a part matches for it exactly if the
   part evaluates to true under the same substitutions.
   */
  lemma MatcherDecides(e: Environment, m: Matcher, f: Frame, truth: Type -> bool)
    requires OnlySubterms(m) && IsOpaque(e, f)
    requires forall t | Inside(t, f.current) :: truth(t) == Evaluate(e, m, f.(current := t))
    ensures Evaluate(e, m, f) == Run(m(f.current), truth)
  {
    OpaqueDoesNotResolve(e, f);
    FollowRuns(e, m, f, m(f.current), truth);
  }

  /** An alias for one of its own parameters evaluates as that argument, read where the reference stands. */
  lemma ParameterAliasEvaluatesAsItsArgument(e: Environment, m: Matcher, name: string, f: Frame, a: AliasId, k: nat)
    requires OnlySubterms(m) && f.current.Reference? && f.current.name == Some(name)
    requires Means(e, name, f.current.site, a) && a in e.aliases && a !in f.resolving
    requires var p := e.aliases[a].parameters;
             && DistinctNames(p) && Applies(p, f.current.arguments) && k < |p| && k < |f.current.arguments|
             && e.aliases[a].annotation.Reference?
             && e.aliases[a].annotation.name == Some(p[k].name) && e.aliases[a].annotation.arguments == []
    ensures Evaluate(e, m, f) == Evaluate(e, m, Frame(f.current.arguments[k], f.scope, f.resolving + {a}))
  {
    hide Evaluate, Means;
    var parameters, arguments := e.aliases[a].parameters, f.current.arguments;
    var annotation := e.aliases[a].annotation;
    AliasEvaluatesAsItsAnnotation(e, m, name, f, a);
    ArgumentsAreClosed(parameters, arguments, f.scope, f.scope, 0, k);
    BoundNameEvaluatesAsItsType(e, m, parameters[k].name, annotation.site,
        Substitute(parameters, arguments, f.scope, f.scope, 0).value, f.resolving + {a});
    assert annotation == Reference(Some(parameters[k].name), annotation.site, []);
  }

  // ---------------------------------------------------------------- how deep it recurses

  predicate Asks(a: Ask, part: Type) {
    a.Child? && (a.part == part || Asks(a.yes, part) || Asks(a.no, part))
  }

  /** evaluate on f may call evaluate on g. */
  predicate Calls(e: Environment, m: Matcher, f: Frame, g: Frame) {
    if Resolve(e, f).Some? then g == Resolve(e, f).value
    else Asks(m(f.current), g.current) && g == f.(current := g.current)
  }

  /** No type in the program is larger than size, no alias has more parameters than width. */
  ghost predicate Within(e: Environment, size: nat, width: nat) {
    forall a | a in e.aliases ::
      && Size(e.aliases[a].annotation) <= size
      && |e.aliases[a].parameters| <= width
      && forall p | p in e.aliases[a].parameters :: p.default.Some? ==> Size(p.default.value) <= size
  }

  predicate ScopeWithin(s: Scope, size: nat) {
    s.Bind? ==> Size(s.value) <= size && ScopeWithin(s.inner, size) && ScopeWithin(s.rest, size)
  }

  ghost predicate FrameOk(e: Environment, size: nat, width: nat, f: Frame) {
    && Size(f.current) <= size
    && ScopeWithin(f.scope, size)
    && f.resolving <= e.aliases.Keys
    && Depth(f.scope) <= Product(|f.resolving|, width)
  }

  lemma {:induction false} LookupWithin(s: Scope, name: string, size: nat)
    requires ScopeWithin(s, size) && Lookup(s, name).Some?
    ensures Size(Lookup(s, name).value.value) <= size && ScopeWithin(Lookup(s, name).value.scope, size)
  {
    if s.name != name {
      LookupWithin(s.rest, name, size);
    }
  }

  lemma {:induction false} SubstituteWithin(parameters: seq<Parameter>, arguments: seq<Type>, base: Scope, next: Scope,
      i: nat, size: nat)
    requires Substitute(parameters, arguments, base, next, i).Some? && i <= |parameters|
    requires ScopeWithin(base, size) && ScopeWithin(next, size)
    requires forall a | a in arguments :: Size(a) <= size
    requires forall p | p in parameters :: p.default.Some? ==> Size(p.default.value) <= size
    requires Depth(base) <= Depth(next)
    ensures ScopeWithin(Substitute(parameters, arguments, base, next, i).value, size)
    ensures Depth(Substitute(parameters, arguments, base, next, i).value) <= Depth(next) + |parameters| - i
    decreases |parameters| - i
  {
    if i < |parameters| {
      var next' := if i < |arguments| then Bind(parameters[i].name, arguments[i], base, next)
                   else Bind(parameters[i].name, parameters[i].default.value, next, next);
      SubstituteWithin(parameters, arguments, base, next', i + 1, size);
    }
  }

  function Product(a: nat, b: nat): (r: nat)
    ensures a == 0 ==> r == 0
  {
    if a == 0 then 0 else b + Product(a - 1, b)
  }

  lemma {:induction false} ProductGrows(a: nat, a': nat, b: nat)
    requires a <= a'
    ensures Product(a, b) <= Product(a', b)
    decreases a'
  {
    if a < a' {
      ProductGrows(a, a' - 1, b);
    }
  }

  /**
   Frames with r aliases left to resolve, scopes of depth d and a type of size z: r rounds of span, d of
   size, and z.
   */
  function Weight(r: nat, d: nat, z: nat, span: nat, size: nat): nat {
    Product(r, span) + Product(d, size) + z
  }

  /** No scope gets deeper than this while a program is evaluated. */
  function MaxDepth(e: Environment, width: nat): nat {
    Product(|e.aliases|, width)
  }

  /** Counts down with every call of evaluate. */
  function Rank(e: Environment, size: nat, width: nat, f: Frame): nat {
    Weight(Unresolved(e, f), Depth(f.scope), Size(f.current), Product(MaxDepth(e, width) + 1, size), size)
  }

  lemma ResolvedDepth(e: Environment, width: nat, f: Frame)
    requires f.resolving <= e.aliases.Keys && Depth(f.scope) <= Product(|f.resolving|, width)
    ensures Depth(f.scope) <= MaxDepth(e, width)
  {
    SubsetIsSmaller(f.resolving, e.aliases.Keys);
    assert |e.aliases.Keys| == |e.aliases|;
    ProductGrows(|f.resolving|, |e.aliases|, width);
  }

  /** A call of the matcher's kind: a part, under the same substitutions. */
  lemma {:induction false} AskedIsInside(a: Ask, t: Type, part: Type)
    requires AsksInside(a, t) && Asks(a, part)
    ensures Inside(part, t)
  {
    if a.part != part {
      if Asks(a.yes, part) {
        AskedIsInside(a.yes, t, part);
      } else {
        AskedIsInside(a.no, t, part);
      }
    }
  }

  lemma ResolveStays(e: Environment, size: nat, width: nat, f: Frame)
    requires Within(e, size, width) && FrameOk(e, size, width, f) && Resolve(e, f).Some?
    ensures FrameOk(e, size, width, Resolve(e, f).value)
  {
    hide Size, Depth;
    var g := Resolve(e, f).value;
    var name := f.current.name.value;
    if g.resolving == f.resolving {
      LookupWithin(f.scope, name, size);
    } else {
      var id := VisibleAlias(e, name, f.current.site).value;
      var alias := e.aliases[id];
      forall a | a in f.current.arguments
        ensures Size(a) <= size
      {
        ArgumentIsSmaller(f.current, a);
      }
      SubstituteWithin(alias.parameters, f.current.arguments, f.scope, f.scope, 0, size);
    }
  }

  lemma ArgumentIsSmaller(t: Type, a: Type)
    requires a in Parts(t)
    ensures Size(a) < Size(t)
  {
    PartOfSizes(Parts(t), a);
  }

  lemma CallStays(e: Environment, m: Matcher, size: nat, width: nat, f: Frame, g: Frame)
    requires OnlySubterms(m) && Within(e, size, width) && FrameOk(e, size, width, f) && Calls(e, m, f, g)
    ensures FrameOk(e, size, width, g)
  {
    if Resolve(e, f).Some? {
      ResolveStays(e, size, width, f);
    } else {
      AskedIsInside(m(f.current), f.current, g.current);
      InsideIsSmaller(g.current, f.current);
    }
  }

  lemma ResolveSinks(e: Environment, size: nat, width: nat, f: Frame, g: Frame)
    requires FrameOk(e, size, width, f) && FrameOk(e, size, width, g)
    requires Unresolved(e, g) < Unresolved(e, f) || (g.resolving == f.resolving && Depth(g.scope) < Depth(f.scope))
    ensures Rank(e, size, width, g) < Rank(e, size, width, f)
  {
    var span := Product(MaxDepth(e, width) + 1, size);
    ResolvedDepth(e, width, g);
    SizeIsPositive(f.current);
    hide FrameOk, Size, Depth;
    assert Size(g.current) <= size by { SizeFits(e, size, width, g); }
    if Unresolved(e, g) < Unresolved(e, f) {
      ProductGrows(Unresolved(e, g) + 1, Unresolved(e, f), span);
      ProductGrows(Depth(g.scope), MaxDepth(e, width), size);
    } else {
      ProductGrows(Depth(g.scope) + 1, Depth(f.scope), size);
    }
  }

  lemma SizeFits(e: Environment, size: nat, width: nat, f: Frame)
    requires FrameOk(e, size, width, f)
    ensures Size(f.current) <= size
  {
  }

  lemma SizeIsPositive(t: Type)
    ensures Size(t) >= 1
  {
  }

  lemma CallSinks(e: Environment, m: Matcher, size: nat, width: nat, f: Frame, g: Frame)
    requires OnlySubterms(m) && FrameOk(e, size, width, f) && FrameOk(e, size, width, g) && Calls(e, m, f, g)
    ensures Rank(e, size, width, g) < Rank(e, size, width, f)
  {
    if Resolve(e, f).Some? {
      ResolveDecreases(e, f);
      assert g == Resolve(e, f).value;
      hide Resolve, Calls, FrameOk, Rank, OnlySubterms, Unresolved, Depth;
      ResolveSinks(e, size, width, f, g);
    } else {
      AskedIsInside(m(f.current), f.current, g.current);
      InsideIsSmaller(g.current, f.current);
      hide Resolve, FrameOk, Size, Depth, Inside;
    }
  }

  /** Calls of evaluate, each made by the one before it. */
  ghost predicate IsChain(e: Environment, m: Matcher, chain: seq<Frame>) {
    forall i | 0 < i < |chain| :: Calls(e, m, chain[i - 1], chain[i])
  }

  lemma {:induction false} ChainIsShort(e: Environment, m: Matcher, size: nat, width: nat, chain: seq<Frame>)
    requires OnlySubterms(m) && Within(e, size, width) && IsChain(e, m, chain) && chain != []
    requires FrameOk(e, size, width, chain[0])
    ensures |chain| <= Rank(e, size, width, chain[0])
    decreases |chain|
  {
    hide OnlySubterms, Within, FrameOk, Calls, Rank;
    if |chain| == 1 {
      RankIsPositive(e, size, width, chain[0]);
    } else {
      assert Calls(e, m, chain[0], chain[1]);
      CallStays(e, m, size, width, chain[0], chain[1]);
      CallSinks(e, m, size, width, chain[0], chain[1]);
      assert forall i | 0 <= i < |chain| - 1 :: chain[1..][i] == chain[i + 1];
      ChainIsShort(e, m, size, width, chain[1..]);
    }
  }

  lemma RankIsPositive(e: Environment, size: nat, width: nat, f: Frame)
    ensures Rank(e, size, width, f) >= 1
  {
  }

  lemma {:induction false} ProductIsProduct(a: nat, b: nat)
    ensures Product(a, b) == a * b
  {
    if a > 0 {
      ProductIsProduct(a - 1, b);
    }
  }

  /**
   With A aliases of at most W parameters and no type larger than S, evaluate is never nested more than
   A(AW + 1)S + S deep, whatever the aliases refer to and whatever the matcher asks.
   */
  lemma RecursionIsBounded(e: Environment, m: Matcher, size: nat, width: nat, t: Type, chain: seq<Frame>)
    requires OnlySubterms(m) && Within(e, size, width) && Size(t) <= size
    requires IsChain(e, m, chain) && chain != [] && chain[0] == Frame(t, Empty, {})
    ensures |chain| <= |e.aliases| * ((|e.aliases| * width + 1) * size) + size
  {
    ChainIsShort(e, m, size, width, chain);
    assert e.aliases.Keys - {} == e.aliases.Keys;
    ProductIsProduct(|e.aliases|, width);
    ProductIsProduct(|e.aliases| * width + 1, size);
    ProductIsProduct(|e.aliases|, (|e.aliases| * width + 1) * size);
  }
}
