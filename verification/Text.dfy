/** Text substitution: `su::String_replace`, the variables of a task template, and the relocation of
    project paths from the console's project directory to the daemon's. Texts are taken as already
    case-folded, so comparing characters is comparing them without regard to case. */
module Text {
  import opened Wrappers

  /** Every occurrence of `what`, left to right and without overlaps, becomes `sub`. */
  function Replace(s: string, what: string, sub: string): string
    requires what != ""
    decreases |s|
  {
    if s == "" then ""
    else if what <= s then sub + Replace(s[|what|..], what, sub)
    else [s[0]] + Replace(s[1..], what, sub)
  }

  ghost predicate Contains(s: string, t: string) {
    exists i | 0 <= i <= |s| :: t <= s[i..]
  }

  lemma {:induction false} ContainsTail(s: string, t: string, k: nat)
    requires k <= |s|
    ensures Contains(s[k..], t) ==> Contains(s, t)
  {
    if Contains(s[k..], t) {
      var i :| 0 <= i <= |s[k..]| && t <= s[k..][i..];
      assert s[k..][i..] == s[k + i..];
    }
  }

  // ---- Templates ----

  function Tag(name: string): (t: string)
    ensures |t| == |name| + 3
  {
    "$(" + name + ")"
  }

  function IndexOf(s: string, c: char): (k: nat)
    ensures k <= |s| && c !in s[..k] && (k < |s| ==> s[k] == c)
  {
    if s == "" || s[0] == c then 0 else
      var k := IndexOf(s[1..], c);
      assert s[..1 + k] == [s[0]] + s[1..][..k];
      1 + k
  }

  /** The name of the token a text starts with. */
  function NameAt(s: string): string
    requires |s| >= 2
  {
    s[2..][..IndexOf(s[2..], ')')]
  }

  predicate StartsToken(s: string) {
    |s| >= 2 && s[1] == '(' && IndexOf(s[2..], ')') < |s| - 2 && '$' !in NameAt(s)
  }

  function AfterToken(s: string): (r: string)
    requires StartsToken(s)
    ensures |r| < |s|
  {
    s[3 + IndexOf(s[2..], ')')..]
  }

  lemma {:induction false} TokenSplits(s: string)
    requires StartsToken(s) && s[0] == '$'
    ensures s == Tag(NameAt(s)) + AfterToken(s)
  {
    var k := IndexOf(s[2..], ')');
    assert s == s[..2] + s[2..][..k] + [s[2..][k]] + s[3 + k..];
  }

  /** `$` occurs only as the start of a complete `$(name)` token. */
  predicate Templated(s: string)
    decreases |s|
  {
    s == "" || if s[0] != '$' then Templated(s[1..]) else StartsToken(s) && Templated(AfterToken(s))
  }

  predicate Mentions(s: string, name: string)
    requires Templated(s)
    decreases |s|
  {
    s != "" && if s[0] != '$' then Mentions(s[1..], name)
               else NameAt(s) == name || Mentions(AfterToken(s), name)
  }

  type Bindings = seq<(string, string)>

  function Lookup(env: Bindings, name: string): Option<string> {
    if env == [] then None else if env[0].0 == name then Some(env[0].1) else Lookup(env[1..], name)
  }

  /** The successive replacements of `TaskVariables::replace`. */
  function SubstituteAll(s: string, env: Bindings): string
    decreases |env|
  {
    if env == [] then s else SubstituteAll(Replace(s, Tag(env[0].0), env[0].1), env[1..])
  }

  /** The reference: one pass over the tokens, all of them replaced at once. */
  function Expand(s: string, env: Bindings): string
    requires Templated(s)
    decreases |s|
  {
    if s == "" then ""
    else if s[0] != '$' then [s[0]] + Expand(s[1..], env)
    else
      var name := NameAt(s);
      var v := Lookup(env, name);
      (if v.Some? then v.value else Tag(name)) + Expand(AfterToken(s), env)
  }

  predicate PlainName(name: string) {
    '$' !in name && ')' !in name
  }

  /** No token of `s` has a value with a `$` in it. */
  ghost predicate PlainValues(s: string, env: Bindings)
    requires Templated(s)
  {
    forall b | b in env :: PlainName(b.0) && (Mentions(s, b.0) ==> '$' !in b.1)
  }

  /** Replacement walks over text without a `$` when the pattern starts with one. */
  lemma {:induction false} SkipPlain(u: string, s: string, what: string, sub: string)
    requires what != "" && what[0] == '$' && '$' !in u
    ensures Replace(u + s, what, sub) == u + Replace(s, what, sub)
  {
    if u == "" {
      assert u + s == s;
    } else {
      SkipPlain(u[1..], s, what, sub);
      assert (u + s)[0] == u[0] && (u + s)[1..] == u[1..] + s;
      assert u == [u[0]] + u[1..];
    }
  }

  /** A tag is a prefix of a token exactly when the names agree. */
  lemma {:induction false} TagPrefix(name: string, other: string, rest: string)
    requires PlainName(name) && PlainName(other)
    ensures Tag(name) <= Tag(other) + rest <==> name == other
  {
    var t, u := Tag(name), Tag(other) + rest;
    if |name| < |other| {
      assert u[|name| + 2] == other[|name|] && other[|name|] in other && t[|name| + 2] == ')';
    } else if |other| < |name| {
      assert t[|other| + 2] == name[|other|] && name[|other|] in name && u[|other| + 2] == ')';
    } else if t <= u {
      forall i | 0 <= i < |name| ensures name[i] == other[i] {
        assert t[i + 2] == u[i + 2];
      }
    }
  }

  /** Replacement at a token: it is the one that is looked for, or it stays whole. */
  lemma {:induction false} ReplaceToken(other: string, rest: string, name: string, v: string)
    requires PlainName(name) && PlainName(other)
    ensures Replace(Tag(other) + rest, Tag(name), v)
            == (if name == other then v else Tag(other)) + Replace(rest, Tag(name), v)
  {
    var s := Tag(other) + rest;
    TagPrefix(name, other, rest);
    if name == other {
      assert s[|Tag(name)|..] == rest;
    } else {
      assert s[0] == '$' && s[1..] == ("(" + other + ")") + rest;
      SkipPlain("(" + other + ")", rest, Tag(name), v);
      assert Tag(other) == ['$'] + ("(" + other + ")");
    }
  }

  lemma {:induction false} ReplaceIsExpand(s: string, name: string, v: string)
    requires Templated(s) && PlainName(name)
    ensures Replace(s, Tag(name), v) == Expand(s, [(name, v)])
    decreases |s|
  {
    if s == "" {
    } else if s[0] != '$' {
      ReplaceIsExpand(s[1..], name, v);
    } else {
      var other, env := NameAt(s), [(name, v)];
      TokenSplits(s);
      ReplaceIsExpand(AfterToken(s), name, v);
      ReplaceToken(other, AfterToken(s), name, v);
      assert Lookup(env, other) == if name == other then Some(v) else None by {
        assert Lookup(env[1..], other) == None;
      }
    }
  }

  /** Plain text in front of a template is left alone by every reading of it. */
  lemma {:induction false} PlainFront(v: string, s: string, env: Bindings, name: string)
    requires Templated(s) && '$' !in v
    ensures Templated(v + s) && Expand(v + s, env) == v + Expand(s, env)
    ensures Mentions(v + s, name) == Mentions(s, name)
  {
    if v == "" {
      assert v + s == s;
    } else {
      PlainFront(v[1..], s, env, name);
      assert (v + s)[0] == v[0] && (v + s)[1..] == v[1..] + s;
    }
  }

  lemma {:induction false} TokenFront(name: string, s: string)
    requires PlainName(name) && Templated(s)
    ensures var t := Tag(name) + s;
            t[0] == '$' && StartsToken(t) && NameAt(t) == name && AfterToken(t) == s && Templated(t)
  {
    var t := Tag(name) + s;
    assert t[2..] == name + (")" + s);
    var k := IndexOf(t[2..], ')');
    assert t[2..][..|name|] == name;
    assert t[2..][|name|] == ')';
    assert forall i | 0 <= i < |name| :: t[2..][i] == name[i] && name[i] in name;
    assert k == |name|;
  }

  /** Expanding `name` first and the rest later is expanding all at once, and brings no new token. */
  predicate Merges(s: string, name: string, v: string, env: Bindings, other: string)
    requires Templated(s)
  {
    var t := Expand(s, [(name, v)]);
    && Templated(t) && Expand(t, env) == Expand(s, [(name, v)] + env)
    && (Mentions(t, other) ==> Mentions(s, other))
  }

  lemma {:induction false} ExpandTwice(s: string, name: string, v: string, env: Bindings, other: string)
    requires Templated(s) && PlainName(name) && (Mentions(s, name) ==> '$' !in v)
    ensures Merges(s, name, v, env, other)
    decreases |s|
  {
    if s == "" {
    } else if s[0] != '$' {
      ExpandTwice(s[1..], name, v, env, other);
      MergesPlain(s, name, v, env, other);
    } else {
      ExpandTwice(AfterToken(s), name, v, env, other);
      MergesToken(s, name, v, env, other);
    }
  }

  lemma {:induction false} MergesPlain(s: string, name: string, v: string, env: Bindings, other: string)
    requires s != "" && s[0] != '$' && Templated(s) && Merges(s[1..], name, v, env, other)
    ensures Merges(s, name, v, env, other)
  {
    PlainFront([s[0]], Expand(s[1..], [(name, v)]), env, other);
  }

  lemma {:induction false} MergesToken(s: string, name: string, v: string, env: Bindings, other: string)
    requires s != "" && s[0] == '$' && Templated(s) && PlainName(name) && (Mentions(s, name) ==> '$' !in v)
    requires Merges(AfterToken(s), name, v, env, other)
    ensures Merges(s, name, v, env, other)
  {
    var here, t := NameAt(s), Expand(AfterToken(s), [(name, v)]);
    assert ([(name, v)] + env)[1..] == env;
    if here == name {
      PlainFront(v, t, env, other);
    } else {
      assert Lookup([(name, v)], here) == None;
      TokenFront(here, t);
    }
  }

  /** The successive replacements are the simultaneous one. */
  lemma {:induction false} SubstitutionIsSimultaneous(s: string, env: Bindings)
    requires Templated(s) && PlainValues(s, env)
    ensures SubstituteAll(s, env) == Expand(s, env)
    decreases |env|
  {
    if env == [] {
      ExpandNothing(s);
    } else {
      var (name, v) := env[0];
      assert env[0] in env && env == [(name, v)] + env[1..];
      ReplaceIsExpand(s, name, v);
      var t := Expand(s, [(name, v)]);
      ExpandTwice(s, name, v, env[1..], name);
      forall b | b in env[1..] ensures PlainName(b.0) && (Mentions(t, b.0) ==> '$' !in b.1) {
        assert b in env;
        ExpandTwice(s, name, v, env[1..], b.0);
      }
      SubstitutionIsSimultaneous(t, env[1..]);
    }
  }

  lemma {:induction false} ExpandNothing(s: string)
    requires Templated(s)
    ensures Expand(s, []) == s
    decreases |s|
  {
    if s != "" {
      if s[0] != '$' {
        ExpandNothing(s[1..]);
      } else {
        TokenSplits(s);
        ExpandNothing(AfterToken(s));
      }
    }
  }

  lemma {:induction false} ExpandSeesOnlyLookups(s: string, env: Bindings, env': Bindings)
    requires Templated(s) && forall name :: Lookup(env, name) == Lookup(env', name)
    ensures Expand(s, env) == Expand(s, env')
    decreases |s|
  {
    if s != "" {
      ExpandSeesOnlyLookups(if s[0] != '$' then s[1..] else AfterToken(s), env, env');
    }
  }

  // ---- Values that contain tags themselves ----

  /** A single tag becomes its value, and then the later replacements go over the value: exactly then is it its
      value when they leave the value alone. */
  lemma {:induction false} TagBecomesItsValue(a: string, v: string, env: Bindings)
    requires PlainName(a)
    ensures SubstituteAll(Tag(a), [(a, v)] + env) == SubstituteAll(v, env)
    ensures Templated(Tag(a)) && Expand(Tag(a), [(a, v)] + env) == v
  {
    var all := [(a, v)] + env;
    assert all[1..] == env && Tag(a) + "" == Tag(a);
    TokenFront(a, "");
    assert Replace(Tag(a), Tag(a), v) == v by { assert Tag(a)[|Tag(a)|..] == ""; }
  }

  /** For instance a value that is itself a tag is expanded again, if its turn comes later. */
  lemma {:induction false} ValuesAreExpandedAgain(a: string, b: string, x: string)
    requires PlainName(a) && PlainName(b) && a != b
    ensures Templated(Tag(a))
    ensures SubstituteAll(Tag(a), [(a, Tag(b)), (b, x)]) == x
    ensures Expand(Tag(a), [(a, Tag(b)), (b, x)]) == Tag(b)
  {
    TagBecomesItsValue(a, Tag(b), [(b, x)]);
    TagBecomesItsValue(b, x, []);
    assert [(a, Tag(b))] + [(b, x)] == [(a, Tag(b)), (b, x)] && [(b, x)] + [] == [(b, x)];
  }

  /** A text without a `$` is left alone by all replacements. */
  lemma {:induction false} PlainIsLeft(s: string, env: Bindings)
    requires '$' !in s
    ensures SubstituteAll(s, env) == s
    decreases |env|
  {
    if env != [] {
      assert s + "" == s;
      SkipPlain(s, "", Tag(env[0].0), env[0].1);
      PlainIsLeft(s, env[1..]);
    }
  }

  lemma {:induction false} OtherTagStays(name: string, other: string, value: string)
    requires PlainName(name) && PlainName(other) && name != other
    ensures Replace(Tag(other), Tag(name), value) == Tag(other)
  {
    assert Tag(other) + "" == Tag(other);
    ReplaceToken(other, "", name, value);
  }

  /** In a list of bindings a tag meets its own replacement first, and then the later ones. */
  lemma {:induction false} TagInTable(env: Bindings, i: nat)
    requires i < |env| && (forall j | 0 <= j <= i :: PlainName(env[j].0))
    requires forall j | 0 <= j < i :: env[j].0 != env[i].0
    ensures SubstituteAll(Tag(env[i].0), env) == SubstituteAll(env[i].1, env[i + 1..])
    decreases i
  {
    if i == 0 {
      TagBecomesItsValue(env[0].0, env[0].1, env[1..]);
      assert [(env[0].0, env[0].1)] + env[1..] == env;
    } else {
      OtherTagStays(env[0].0, env[i].0, env[0].1);
      TagInTable(env[1..], i - 1);
      assert env[1..][i..] == env[i + 1..];
    }
  }

  lemma {:induction false} LookupAt(env: Bindings, i: nat)
    requires i < |env| && forall j | 0 <= j < i :: env[j].0 != env[i].0
    ensures Lookup(env, env[i].0) == Some(env[i].1)
  {
    if i > 0 { LookupAt(env[1..], i - 1); }
  }

  /** Every value after the replacements that come later. */
  function Resolved(env: Bindings): Bindings {
    if env == [] then [] else [(env[0].0, SubstituteAll(env[0].1, env[1..]))] + Resolved(env[1..])
  }

  predicate BindsTemplate(b: (string, string)) {
    PlainName(b.0) && Templated(b.1)
  }

  predicate AllTemplates(env: Bindings) {
    forall i | 0 <= i < |env| :: BindsTemplate(env[i])
  }

  lemma {:induction false} TailTemplates(env: Bindings)
    requires env != [] && AllTemplates(env)
    ensures BindsTemplate(env[0]) && AllTemplates(env[1..])
  {
    assert forall i | 0 <= i < |env[1..]| :: env[1..][i] == env[i + 1];
  }

  predicate Joins(v: string, t: string, env: Bindings)
    requires Templated(v) && Templated(t)
  {
    Templated(v + t) && Expand(v + t, env) == Expand(v, env) + Expand(t, env)
  }

  lemma {:induction false} ExpandJoin(v: string, t: string, env: Bindings)
    requires Templated(v) && Templated(t)
    ensures Joins(v, t, env)
    decreases |v|
  {
    if v == "" {
      assert v + t == t;
    } else if v[0] != '$' {
      ExpandJoin(v[1..], t, env);
      JoinPlain(v, t, env);
    } else {
      ExpandJoin(AfterToken(v), t, env);
      JoinToken(v, t, env);
    }
  }

  lemma {:induction false} JoinPlain(v: string, t: string, env: Bindings)
    requires v != "" && v[0] != '$' && Templated(v) && Templated(t) && Joins(v[1..], t, env)
    ensures Joins(v, t, env)
  {
    var c, front, back := [v[0]], Expand(v[1..], env), Expand(t, env);
    assert (v + t)[0] == v[0] && (v + t)[1..] == v[1..] + t;
    assert Expand(v + t, env) == c + (front + back);
    assert Expand(v, env) == c + front;
    assert c + (front + back) == c + front + back;
  }

  /** What a token of this name becomes. */
  function TokenValue(name: string, env: Bindings): string {
    if Lookup(env, name).Some? then Lookup(env, name).value else Tag(name)
  }

  lemma {:induction false} ExpandToken(name: string, rest: string, env: Bindings)
    requires PlainName(name) && Templated(rest)
    ensures Templated(Tag(name) + rest) && Expand(Tag(name) + rest, env) == TokenValue(name, env) + Expand(rest, env)
  {
    TokenFront(name, rest);
  }

  lemma {:induction false} Assoc(a: string, b: string, c: string)
    ensures a + b + c == a + (b + c)
  {
  }

  lemma {:induction false} JoinTag(here: string, rest: string, t: string, env: Bindings)
    requires PlainName(here) && Templated(rest) && Templated(t) && Joins(rest, t, env)
    ensures Templated(Tag(here) + rest) && Joins(Tag(here) + rest, t, env)
  {
    ExpandToken(here, rest, env);
    ExpandToken(here, rest + t, env);
    Assoc(Tag(here), rest, t);
    Assoc(TokenValue(here, env), Expand(rest, env), Expand(t, env));
  }

  lemma {:induction false} JoinToken(v: string, t: string, env: Bindings)
    requires v != "" && v[0] == '$' && Templated(v) && Templated(t) && Joins(AfterToken(v), t, env)
    ensures Joins(v, t, env)
  {
    TokenSplits(v);
    JoinTag(NameAt(v), AfterToken(v), t, env);
  }

  /** Expanding `name` first and the rest later is expanding all at once, with the rest expanded in the value. */
  predicate MergesInto(s: string, name: string, v: string, env: Bindings)
    requires Templated(s) && Templated(v)
  {
    var t := Expand(s, [(name, v)]);
    Templated(t) && Expand(t, env) == Expand(s, [(name, Expand(v, env))] + env)
  }

  lemma {:induction false} ExpandInto(s: string, name: string, v: string, env: Bindings)
    requires Templated(s) && Templated(v)
    ensures MergesInto(s, name, v, env)
    decreases |s|
  {
    if s == "" {
    } else if s[0] != '$' {
      ExpandInto(s[1..], name, v, env);
      PlainFront([s[0]], Expand(s[1..], [(name, v)]), env, name);
    } else {
      ExpandInto(AfterToken(s), name, v, env);
      IntoToken(s, name, v, env);
    }
  }

  lemma {:induction false} IntoToken(s: string, name: string, v: string, env: Bindings)
    requires s != "" && s[0] == '$' && Templated(s) && Templated(v) && MergesInto(AfterToken(s), name, v, env)
    ensures MergesInto(s, name, v, env)
  {
    var here, t := NameAt(s), Expand(AfterToken(s), [(name, v)]);
    var all := [(name, Expand(v, env))] + env;
    assert all[1..] == env;
    if here == name {
      ExpandJoin(v, t, env);
    } else {
      assert Lookup([(name, v)], here) == None;
      TokenFront(here, t);
    }
  }

  /** What the successive replacements make of a template, whatever tags its values contain: one pass over its
      tokens, each becoming its value after the replacements that come later. */
  lemma {:induction false} SubstitutionResolves(s: string, env: Bindings)
    requires Templated(s) && AllTemplates(env)
    ensures SubstituteAll(s, env) == Expand(s, Resolved(env))
    decreases |env|
  {
    if env == [] {
      ExpandNothing(s);
    } else {
      var (name, v) := env[0];
      var rest := env[1..];
      TailTemplates(env);
      ReplaceIsExpand(s, name, v);
      ExpandInto(s, name, v, Resolved(rest));
      SubstitutionResolves(Expand(s, [(name, v)]), rest);
      SubstitutionResolves(v, rest);
    }
  }

  /** Exactly when no value is changed by the later replacements are the successive replacements the
      simultaneous one for every template; of two values for one name the first counts. */
  lemma {:induction false} SimultaneousExactly(env: Bindings)
    requires AllTemplates(env)
    ensures (forall s | Templated(s) :: SubstituteAll(s, env) == Expand(s, env))
            <==> forall name :: Lookup(Resolved(env), name) == Lookup(env, name)
  {
    if forall name :: Lookup(Resolved(env), name) == Lookup(env, name) {
      forall s | Templated(s) ensures SubstituteAll(s, env) == Expand(s, env) {
        SubstitutionResolves(s, env);
        ExpandSeesOnlyLookups(s, Resolved(env), env);
      }
    } else {
      var name :| Lookup(Resolved(env), name) != Lookup(env, name);
      SameNames(env, name);
      ExpandTag(name, env);
      ExpandTag(name, Resolved(env));
      SubstitutionResolves(Tag(name), env);
      assert Templated(Tag(name)) && SubstituteAll(Tag(name), env) != Expand(Tag(name), env);
    }
  }

  /** No value mentions a variable that is replaced later. */
  predicate NoLaterTag(env: Bindings) {
    forall i, j | 0 <= i < j < |env| :: MentionsNot(env[i].1, env[j].0)
  }

  predicate MentionsNot(v: string, name: string) {
    Templated(v) && !Mentions(v, name)
  }

  predicate MentionsNone(s: string, env: Bindings) {
    forall i | 0 <= i < |env| :: MentionsNot(s, env[i].0)
  }

  lemma {:induction false} ExpandUnbound(s: string, env: Bindings)
    requires Templated(s) && MentionsNone(s, env)
    ensures Expand(s, env) == s
    decreases |s|
  {
    if s == "" {
    } else if s[0] != '$' {
      forall i | 0 <= i < |env| ensures MentionsNot(s[1..], env[i].0) { assert MentionsNot(s, env[i].0); }
      ExpandUnbound(s[1..], env);
    } else {
      forall i | 0 <= i < |env| ensures MentionsNot(AfterToken(s), env[i].0) { assert MentionsNot(s, env[i].0); }
      TokenSplits(s);
      ExpandUnbound(AfterToken(s), env);
      NotBound(env, NameAt(s));
    }
  }

  lemma {:induction false} NotBound(env: Bindings, name: string)
    requires forall i | 0 <= i < |env| :: env[i].0 != name
    ensures Lookup(env, name).None?
  {
    if env != [] { NotBound(env[1..], name); }
  }

  lemma {:induction false} HeadMentionsNone(env: Bindings)
    requires env != [] && NoLaterTag(env)
    ensures MentionsNone(env[0].1, env[1..]) && NoLaterTag(env[1..])
  {
    assert forall i | 0 <= i < |env[1..]| :: env[1..][i] == env[i + 1];
  }

  lemma {:induction false} NothingToResolve(env: Bindings)
    requires AllTemplates(env) && NoLaterTag(env)
    ensures Resolved(env) == env
  {
    if env != [] {
      TailTemplates(env);
      HeadMentionsNone(env);
      NothingToResolve(env[1..]);
      SubstitutionResolves(env[0].1, env[1..]);
      ExpandUnbound(env[0].1, env[1..]);
    }
  }

  /** That is the case, whatever the template, when no value mentions a variable that is replaced later; earlier
      ones it may. */
  lemma {:induction false} SimultaneousWithoutLaterTags(s: string, env: Bindings)
    requires Templated(s) && AllTemplates(env) && NoLaterTag(env)
    ensures SubstituteAll(s, env) == Expand(s, env)
  {
    NothingToResolve(env);
    SubstitutionResolves(s, env);
  }

  lemma {:induction false} ExpandTag(name: string, env: Bindings)
    requires PlainName(name)
    ensures Templated(Tag(name))
    ensures Expand(Tag(name), env) == if Lookup(env, name).Some? then Lookup(env, name).value else Tag(name)
  {
    assert Tag(name) + "" == Tag(name);
    TokenFront(name, "");
  }

  lemma {:induction false} SameNames(env: Bindings, name: string)
    requires AllTemplates(env)
    ensures Lookup(Resolved(env), name).Some? <==> Lookup(env, name).Some?
    ensures Lookup(env, name).Some? ==> PlainName(name)
  {
    if env != [] {
      var all := Resolved(env);
      TailTemplates(env);
      assert all[1..] == Resolved(env[1..]);
      SameNames(env[1..], name);
    }
  }

  /** The order of the replacements does not matter. */
  lemma {:induction false} OrderIsIrrelevant(s: string, env: Bindings, env': Bindings)
    requires Templated(s) && PlainValues(s, env) && PlainValues(s, env')
    requires forall name :: Lookup(env, name) == Lookup(env', name)
    ensures SubstituteAll(s, env) == SubstituteAll(s, env')
  {
    SubstitutionIsSimultaneous(s, env);
    SubstitutionIsSimultaneous(s, env');
    ExpandSeesOnlyLookups(s, env, env');
  }

  // ---- Relocation ----

  const PDIR := "$(pdir)"

  /** Text without a `$` at the front of a replacement by a tag was at the front of the original. */
  lemma {:induction false} PlainPrefixSurvives(y: string, s: string, what: string, sub: string)
    requires what != "" && sub != "" && sub[0] == '$' && '$' !in y
    requires y <= Replace(s, what, sub)
    ensures y <= s
    decreases |s|
  {
    if y != "" && s != "" {
      var r := Replace(s, what, sub);
      assert y[0] == r[0] && y[0] in y;
      assert !(what <= s);
      assert y[1..] <= r[1..] && r[1..] == Replace(s[1..], what, sub);
      PlainPrefixSurvives(y[1..], s[1..], what, sub);
      assert y == [y[0]] + y[1..] && s == [s[0]] + s[1..];
    }
  }

  /** De-localising a text on the console and localising it on a daemon is replacing the one
      directory by the other: no tag forms across a seam. */
  lemma {:induction false} Relocation(s: string, pdir: string, w: string)
    requires pdir != "" && !Contains(s, PDIR)
    ensures Replace(Replace(s, pdir, PDIR), PDIR, w) == Replace(s, pdir, w)
    decreases |s|
  {
    if s == "" {
    } else if pdir <= s {
      var t := s[|pdir|..];
      ContainsTail(s, PDIR, |pdir|);
      Relocation(t, pdir, w);
      var u := Replace(t, pdir, PDIR);
      assert PDIR <= PDIR + u && (PDIR + u)[|PDIR|..] == u;
    } else {
      ContainsTail(s, PDIR, 1);
      Relocation(s[1..], pdir, w);
      NoTagAtSeam(s, pdir);
      var t := [s[0]] + Replace(s[1..], pdir, PDIR);
      assert t[1..] == Replace(s[1..], pdir, PDIR);
    }
  }

  lemma {:induction false} NoTagAtSeam(s: string, pdir: string)
    requires pdir != "" && s != ""
    ensures PDIR <= [s[0]] + Replace(s[1..], pdir, PDIR) ==> Contains(s, PDIR)
  {
    var t := [s[0]] + Replace(s[1..], pdir, PDIR);
    if PDIR <= t {
      assert PDIR[1..] <= t[1..] && t[1..] == Replace(s[1..], pdir, PDIR);
      PlainPrefixSurvives(PDIR[1..], s[1..], pdir, PDIR);
      assert PDIR == [s[0]] + PDIR[1..] && s == [s[0]] + s[1..];
      assert PDIR <= s[0..];
    }
  }

  lemma {:induction false} ReplaceBySame(s: string, what: string)
    requires what != ""
    ensures Replace(s, what, what) == s
    decreases |s|
  {
    if s != "" {
      if what <= s {
        ReplaceBySame(s[|what|..], what);
        assert s == what + s[|what|..];
      } else {
        ReplaceBySame(s[1..], what);
        assert s == [s[0]] + s[1..];
      }
    }
  }

  lemma {:induction false} RelocationRoundTrip(s: string, pdir: string)
    requires pdir != "" && !Contains(s, PDIR)
    ensures Replace(Replace(s, pdir, PDIR), PDIR, pdir) == s
  {
    Relocation(s, pdir, pdir);
    ReplaceBySame(s, pdir);
  }
}
