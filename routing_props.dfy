/** Properties of the router model: the token round trip, what the `%rest`
    shorthands expand to, how verbs are pinned, the route table a plain `%rest`
    compiles to, and first-match resolution against it. */
module RoutingProperties {
  import opened Wrappers
  import opened PhpStrings
  import opened PhpArrays
  import opened Routing

  // ---------------------------------------------------------------------------
  // Tokens

  /** What every template starting with the tokens `a` starts with. */
  function TokensPrefix(a: seq<string>): string
  {
    if a == [] then "/" else ImplodeTokens(a) + "/"
  }

  lemma ImplodeAppend(a: seq<string>, b: seq<string>)
    requires |b| >= 1
    ensures ImplodeTokens(a + b) == TokensPrefix(a) + Join(b, '/')
  {
    if a == [] {
      assert a + b == b;
    } else {
      JoinAppend(a, b, '/');
      ConcatAssoc(['/'], Join(a, '/'), ['/'], Join(b, '/'));
    }
  }

  lemma ConcatAssoc(w: string, x: string, y: string, z: string)
    ensures w + (x + y + z) == w + x + y + z
  {
  }

  lemma ExplodeSlash(x: string)
    ensures ExplodeTokens("/" + x) == Split(x, '/')
  {
    SplitConcat("", '/', x);
    assert "" + ['/'] + x == "/" + x;
  }

  /** `implodeTokens(explodeTokens(s)) == s` for every url that starts with `/`. */
  lemma ImplodeExplode(s: string)
    requires StartsWith(s, "/")
    ensures ImplodeTokens(ExplodeTokens(s)) == s
  {
    assert s == "/" + s[1..];
    ExplodeSlash(s[1..]);
    JoinSplit(s[1..], '/');
  }

  /** `explodeTokens(implodeTokens(ts)) == ts` for a non-empty list of tokens
      without `/`. */
  lemma ExplodeImplode(ts: seq<string>)
    requires |ts| >= 1
    requires forall i :: 0 <= i < |ts| ==> '/' !in ts[i]
    ensures ExplodeTokens(ImplodeTokens(ts)) == ts
  {
    ExplodeSlash(Join(ts, '/'));
    SplitJoin(ts, '/');
  }

  // ---------------------------------------------------------------------------
  // Shorthand action lists

  lemma SplitRestActionText()
    ensures Split(RestActionText, ',') == RestActions
  {
    SplitJoin(RestActions, ',');
  }

  lemma BracketFreeRestActionText()
    ensures '[' !in RestActionText && ']' !in RestActionText
  {
    forall i | 0 <= i < |RestActions| ensures '[' !in RestActions[i] && ']' !in RestActions[i] {
      LowercaseAction(i);
    }
    NotInJoin(RestActions, ',', '[');
    NotInJoin(RestActions, ',', ']');
  }

  /** The seven action names are made of lower-case letters only. */
  lemma LowercaseAction(i: nat)
    requires i < |RestActions|
    ensures forall j :: 0 <= j < |RestActions[i]| ==> 'a' <= RestActions[i][j] <= 'z'
  {
    var a := RestActions[i];
    if i == 0 { assert a == "index"; }
    else if i == 1 { assert a == "show"; }
    else if i == 2 { assert a == "new"; }
    else if i == 3 { assert a == "create"; }
    else if i == 4 { assert a == "edit"; }
    else if i == 5 { assert a == "update"; }
    else { assert a == "destroy"; }
  }

  lemma TrimRestActions()
    ensures forall k :: 0 <= k < |RestActions| ==> Trim(RestActions[k]) == RestActions[k]
  {
    forall k | 0 <= k < |RestActions| ensures Trim(RestActions[k]) == RestActions[k] {
      TrimNoop(RestActions[k]);
    }
  }

  /** Each piece of `s` between commas, trimmed. */
  function TrimmedPieces(s: string): (r: seq<string>)
    ensures |r| == |Split(s, ',')|
  {
    var raw := Split(s, ',');
    seq(|raw|, i requires 0 <= i < |raw| => Trim(raw[i]))
  }

  /** The text between the first `[` and the following `]`. */
  lemma BracketOf(a: string, x: string, b: string)
    requires '[' !in a && ']' !in x
    ensures BracketContents(a + ['['] + x + [']'] + b) == x
  {
    var t := a + ['['] + x + [']'] + b;
    assert t == a + ['['] + (x + [']'] + b);
    FirstIndexAfter(a, '[', x + [']'] + b);
    assert t[|a| + 1..] == x + [']'] + b;
    FirstIndexAfter(x, ']', b);
  }

  /** The names listed in a shorthand token, once extended. */
  lemma NamesOf(token: string, a: string, x: string, b: string)
    requires ExtendRestToken(token) == a + ['['] + x + [']'] + b
    requires '[' !in a && ']' !in x
    ensures RestActionNames(token) == TrimmedPieces(x)
  {
    BracketOf(a, x, b);
  }

  lemma TrimmedRestActions()
    ensures TrimmedPieces(RestActionText) == RestActions
  {
    SplitRestActionText();
    TrimRestActions();
  }

  /** A plain `%rest` generates exactly the seven resource actions, in order. */
  lemma PlainRestActions(token: string)
    requires token == "%rest"
    ensures RestActionNames(token) == RestActions
  {
    BracketFreeRestActionText();
    assert ExtendRestToken(token) == token + ['['] + RestActionText + [']'] + "";
    NamesOf(token, token, RestActionText, "");
    TrimmedRestActions();
  }

  lemma TrimmedConcat(x: string, y: string)
    ensures TrimmedPieces(x + [','] + y) == TrimmedPieces(x) + TrimmedPieces(y)
  {
    SplitConcat(x, ',', y);
  }

  lemma BracketAssoc(h: string, x: string, s: string)
    ensures h + ("[" + x + ",") + (s + "]") == h + ['['] + (x + [','] + s) + [']'] + ""
  {
  }

  lemma ExtendedToken(token: string, s: string)
    requires token == "%rest[" + s + "]"
    requires '[' !in s
    ensures ExtendRestToken(token) == "%rest" + ['['] + (RestActionText + [','] + s) + [']'] + ""
  {
    var head := "%rest";
    assert token == head + ['['] + (s + "]");
    assert StartsWith(token, "%rest[") by { assert token[..6] == "%rest["; }
    assert StartsWith(token, "%rest") by { assert token[..5] == "%rest"; }
    assert token != "%rest" by { assert |token| > 5; }
    ReplaceOnce(head, '[', s + "]", "[" + RestActionText + ",");
    BracketAssoc(head, RestActionText, s);
  }

  /** `%rest[a, b]` generates the seven resource actions followed by the listed
      names, each trimmed. */
  lemma ExtendedRestActions(token: string, s: string)
    requires token == "%rest[" + s + "]"
    requires '[' !in s && ']' !in s
    ensures RestActionNames(token) == RestActions + TrimmedPieces(s)
  {
    BracketFreeRestActionText();
    ExtendedToken(token, s);
    var inner := RestActionText + [','] + s;
    NamesOf(token, "%rest", inner, "");
    TrimmedConcat(RestActionText, s);
    TrimmedRestActions();
  }

  /** A string lacking one of `p`'s characters does not start with `p`. */
  lemma NotStartsWith(s: string, p: string, i: nat)
    requires i < |p| && p[i] !in s
    ensures !StartsWith(s, p)
  {
  }

  /** A shorthand token without brackets other than `%rest` itself generates a
      single empty action name (PHP works on `false` there). */
  lemma BracketlessShorthand(token: string)
    requires '[' !in token && token != "%rest"
    ensures RestActionNames(token) == [""]
  {
    assert "%rest["[5] == '[';
    NotStartsWith(token, "%rest[", 5);
    assert ExtendRestToken(token) == token;
  }

  /** The resource actions get their fixed end tokens; any other name is kept
      and routed by GET unless it names its own verb. */
  lemma EndTokens(action: string)
    ensures EndToken("index") == "@get" && EndToken("show") == ":id@get"
    ensures EndToken("new") == "new@get" && EndToken("create") == "new@post"
    ensures EndToken("edit") == ":id/edit@get" && EndToken("update") == ":id@patch"
    ensures EndToken("destroy") == ":id@delete"
    ensures action !in RestActions ==> EndToken(action) == if '@' in action then action else action + "@get"
  {
    if action !in RestActions {
      assert action != RestActions[0] && action != RestActions[1] && action != RestActions[2];
      assert action != RestActions[3] && action != RestActions[4];
      assert action != RestActions[5] && action != RestActions[6];
    }
  }

  // ---------------------------------------------------------------------------
  // Expansion of a plain `%rest` definition

  /** The definitions a shorthand generates from the leading tokens `base`. */
  function Generated(base: seq<string>, params: Params, actions: seq<string>): (g: Definitions)
    ensures |g| == |actions|
    ensures forall i :: 0 <= i < |actions| ==> g[i] == (RestUrl(base, actions[i]), RestParams(params, actions[i]))
  {
    seq(|actions|, i requires 0 <= i < |actions| => (RestUrl(base, actions[i]), RestParams(params, actions[i])))
  }

  /** A url no generated definition has is not a key of them. */
  lemma GeneratedAvoids(base: seq<string>, params: Params, actions: seq<string>, u: string)
    requires forall i :: 0 <= i < |actions| ==> RestUrl(base, actions[i]) != u
    ensures !HasKey(Generated(base, params, actions), u)
  {
    var g := Generated(base, params, actions);
    forall t | 0 <= t < |g| ensures g[t].0 != u {
    }
  }

  lemma NotKeyOfAppend<V>(live: OMap<string, V>, gen: OMap<string, V>, u: string)
    requires !HasKey(live, u)
    requires forall t :: 0 <= t < |gen| ==> gen[t].0 != u
    ensures !HasKey(live + gen, u)
  {
    var m := live + gen;
    forall t | 0 <= t < |m| ensures m[t].0 != u {
      if t >= |live| {
        assert m[t] == gen[t - |live|];
      }
    }
  }

  /** Generated urls that are new and distinct are appended in order. */
  lemma {:induction false} PutActionsFresh(live: Definitions, base: seq<string>, params: Params, actions: seq<string>)
    requires forall i, j :: 0 <= i < j < |actions| ==> RestUrl(base, actions[i]) != RestUrl(base, actions[j])
    requires forall i :: 0 <= i < |actions| ==> !HasKey(live, RestUrl(base, actions[i]))
    ensures PutActions(live, base, params, actions) == live + Generated(base, params, actions)
  {
    if actions != [] {
      var n := |actions| - 1;
      var init := actions[..n];
      var gen := Generated(base, params, init);
      var u := RestUrl(base, actions[n]);
      var v := RestParams(params, actions[n]);
      assert PutActions(live, base, params, init) == live + gen by {
        assert forall i :: 0 <= i < n ==> init[i] == actions[i];
        PutActionsFresh(live, base, params, init);
      }
      assert !HasKey(live + gen, u) by {
        forall t | 0 <= t < |gen| ensures gen[t].0 != u {
          assert gen[t].0 == RestUrl(base, actions[t]);
        }
        NotKeyOfAppend(live, gen, u);
      }
      assert PutActions(live, base, params, actions) == Put(live + gen, u, v);
      assert Generated(base, params, actions) == gen + [(u, v)];
      assert live + gen + [(u, v)] == live + (gen + [(u, v)]);
    }
  }

  lemma RestUrlSuffix(base: seq<string>, action: string)
    ensures RestUrl(base, action) == TokensPrefix(base) + EndToken(action)
  {
    ImplodeAppend(base, [EndToken(action)]);
  }

  lemma RestEndTokensDistinct()
    ensures forall i, j :: 0 <= i < j < |RestActions| ==> EndToken(RestActions[i]) != EndToken(RestActions[j])
    ensures forall i :: 0 <= i < |RestActions| ==> EndToken(RestActions[i]) != "%rest"
  {
  }

  /** The seven generated urls differ from each other and from the template. */
  lemma RestUrlsFresh(base: seq<string>, token: string)
    requires token == "%rest"
    ensures forall i, j :: 0 <= i < j < |RestActions| ==> RestUrl(base, RestActions[i]) != RestUrl(base, RestActions[j])
    ensures forall i :: 0 <= i < |RestActions| ==> RestUrl(base, RestActions[i]) != ImplodeTokens(base + [token])
  {
    var p := TokensPrefix(base);
    RestEndTokensDistinct();
    ImplodeAppend(base, [token]);
    forall i | 0 <= i < |RestActions| ensures RestUrl(base, RestActions[i]) == p + EndToken(RestActions[i]) {
      RestUrlSuffix(base, RestActions[i]);
    }
    forall i, j | 0 <= i < j < |RestActions| ensures RestUrl(base, RestActions[i]) != RestUrl(base, RestActions[j]) {
      assert (p + EndToken(RestActions[i]))[|p|..] == EndToken(RestActions[i]);
      assert (p + EndToken(RestActions[j]))[|p|..] == EndToken(RestActions[j]);
    }
    forall i | 0 <= i < |RestActions| ensures RestUrl(base, RestActions[i]) != ImplodeTokens(base + [token]) {
      assert (p + EndToken(RestActions[i]))[|p|..] == EndToken(RestActions[i]);
      assert (p + token)[|p|..] == token;
    }
  }

  /** `unset` of the first key of an array whose other keys differ from it. */
  lemma RemoveHead(url: string, params: Params, g: Definitions)
    requires forall t :: 0 <= t < |g| ==> g[t].0 != url
    ensures Remove([(url, params)] + g, url) == g
  {
    RemoveAbsent(g, url);
    assert ([(url, params)] + g)[1..] == g;
  }

  /** One shorthand definition is replaced by what its actions generate. */
  lemma ExpandSingle(base: seq<string>, params: Params, token: string)
    requires StartsWith(token, "%") && '/' !in token
    requires forall i :: 0 <= i < |base| ==> '/' !in base[i]
    ensures ExpandRest([(ImplodeTokens(base + [token]), params)])
         == Remove(PutActions([(ImplodeTokens(base + [token]), params)], base, params, RestActionNames(token)), ImplodeTokens(base + [token]))
  {
    var tokens := base + [token];
    var url := ImplodeTokens(tokens);
    var defs := [(url, params)];
    ExplodeImplode(tokens);
    assert tokens[..|tokens| - 1] == base;
    assert ShorthandToken(url) == Some(token);
    assert ExpandRestUpTo(defs, 0) == defs;
    assert ExpandRest(defs) == ExpandOne(defs, url, params);
  }

  /** The seven definitions are appended after the template's own. */
  lemma PlainRestPut(base: seq<string>, params: Params, token: string)
    requires token == "%rest"
    ensures PutActions([(ImplodeTokens(base + [token]), params)], base, params, RestActions)
         == [(ImplodeTokens(base + [token]), params)] + Generated(base, params, RestActions)
    ensures forall t :: 0 <= t < |RestActions| ==> Generated(base, params, RestActions)[t].0 != ImplodeTokens(base + [token])
  {
    var defs := [(ImplodeTokens(base + [token]), params)];
    RestUrlsFresh(base, token);
    forall i | 0 <= i < |RestActions| ensures !HasKey(defs, RestUrl(base, RestActions[i])) {
    }
    PutActionsFresh(defs, base, params, RestActions);
  }

  /** A template ending in `%rest` expands to the seven resource definitions,
      in order, each with its action name in the metadata; the template itself
      is gone. */
  lemma PlainRestExpansion(base: seq<string>, params: Params, token: string)
    requires token == "%rest"
    requires forall i :: 0 <= i < |base| ==> '/' !in base[i]
    ensures ExpandRest([(ImplodeTokens(base + [token]), params)]) == Generated(base, params, RestActions)
  {
    ExpandSingle(base, params, token);
    PlainRestActions(token);
    PlainRestPut(base, params, token);
    RemoveHead(ImplodeTokens(base + [token]), params, Generated(base, params, RestActions));
  }

  // ---------------------------------------------------------------------------
  // Expansion of a shorthand among other definitions

  /** The end tokens of `names` differ from each other and from the shorthand
      token itself, so their urls do too. */
  predicate DistinctEndTokens(names: seq<string>, token: string)
  {
    (forall i, j :: 0 <= i < j < |names| ==> EndToken(names[i]) != EndToken(names[j]))
    && forall i :: 0 <= i < |names| ==> EndToken(names[i]) != token
  }

  /** Urls generated from the same template differ when their end tokens do. */
  lemma RestUrlsDistinct(base: seq<string>, names: seq<string>, token: string)
    requires DistinctEndTokens(names, token)
    ensures forall i, j :: 0 <= i < j < |names| ==> RestUrl(base, names[i]) != RestUrl(base, names[j])
    ensures forall i :: 0 <= i < |names| ==> RestUrl(base, names[i]) != ImplodeTokens(base + [token])
  {
    var p := TokensPrefix(base);
    ImplodeAppend(base, [token]);
    forall i | 0 <= i < |names| ensures RestUrl(base, names[i]) == p + EndToken(names[i]) {
      RestUrlSuffix(base, names[i]);
    }
    forall i, j | 0 <= i < j < |names| ensures RestUrl(base, names[i]) != RestUrl(base, names[j]) {
      assert (p + EndToken(names[i]))[|p|..] == EndToken(names[i]);
      assert (p + EndToken(names[j]))[|p|..] == EndToken(names[j]);
    }
    forall i | 0 <= i < |names| ensures RestUrl(base, names[i]) != ImplodeTokens(base + [token]) {
      assert (p + EndToken(names[i]))[|p|..] == EndToken(names[i]);
      assert (p + token)[|p|..] == token;
    }
  }

  /** The template `<base>/<token>` is a shorthand with that token. */
  lemma ShorthandOf(base: seq<string>, token: string)
    requires StartsWith(token, "%") && '/' !in token
    requires forall i :: 0 <= i < |base| ==> '/' !in base[i]
    ensures ShorthandToken(ImplodeTokens(base + [token])) == Some(token)
    ensures ExplodeTokens(ImplodeTokens(base + [token])) == base + [token]
  {
    var tokens := base + [token];
    ExplodeImplode(tokens);
    assert tokens[|tokens| - 1] == token;
  }

  /** One pass of the expansion over a shorthand definition in any array:
      when its generated urls are new, they are appended after the other
      definitions in action order, and the shorthand's own entry is removed
      with the others keeping their order. */
  lemma ExpandOneFresh(live: Definitions, base: seq<string>, params: Params, token: string)
    requires StartsWith(token, "%") && '/' !in token
    requires forall i :: 0 <= i < |base| ==> '/' !in base[i]
    requires DistinctEndTokens(RestActionNames(token), token)
    requires forall i :: 0 <= i < |RestActionNames(token)| ==> !HasKey(live, RestUrl(base, RestActionNames(token)[i]))
    ensures ExpandOne(live, ImplodeTokens(base + [token]), params)
         == Remove(live, ImplodeTokens(base + [token])) + Generated(base, params, RestActionNames(token))
  {
    var url := ImplodeTokens(base + [token]);
    var names := RestActionNames(token);
    var gen := Generated(base, params, names);
    ShorthandOf(base, token);
    assert (base + [token])[..|base + [token]| - 1] == base;
    assert ExpandOne(live, url, params) == Remove(PutActions(live, base, params, names), url);
    RestUrlsDistinct(base, names, token);
    PutActionsFresh(live, base, params, names);
    RemoveConcat(live, gen, url);
    GeneratedAvoids(base, params, names, url);
    RemoveAbsent(gen, url);
  }

  /** The extra names of `%rest[...]` whose end tokens cannot collide: no
      verb of their own, no `/`, none empty, none `:id` and none a standard
      action. */
  predicate PlainExtraNames(extras: seq<string>)
  {
    (forall i :: 0 <= i < |extras| ==>
       '@' !in extras[i] && '/' !in extras[i] && extras[i] != "" && extras[i] != ":id" && extras[i] !in RestActions)
    && forall i, j :: 0 <= i < j < |extras| ==> extras[i] != extras[j]
  }

  /** Two strings that end differently, or end alike after different
      beginnings of the same length, differ. */
  lemma EndsDiffer(x: string, t: string, y: string, u: string)
    requires |t| == |u| && (t != u || x != y)
    ensures x + t != y + u
  {
    if |x| != |y| {
      assert |x + t| != |y + u|;
    } else if t != u {
      assert (x + t)[|x|..] == t;
      assert (y + u)[|y|..] == u;
    } else {
      assert (x + t)[..|x|] == x;
      assert (y + u)[..|y|] == y;
    }
  }

  /** A plain extra name's end token is the name with `@get`, unlike every
      standard end token. */
  lemma ExtraEndToken(x: string, k: nat)
    requires '@' !in x && '/' !in x && x != "" && x != ":id" && x !in RestActions && k < |RestActions|
    ensures EndToken(x) == x + "@get"
    ensures EndToken(x) != EndToken(RestActions[k])
  {
    CustomEndToken(x);
    RestEndTokenAt(k);
    var e := RestEndTokens[k];
    var g := "@get";
    if k == 0 {
      assert e == "" + g;
      EndsDiffer(x, g, "", g);
    } else if k == 1 {
      assert e == ":id" + g;
      EndsDiffer(x, g, ":id", g);
    } else if k == 2 {
      assert e == RestActions[2] + g;
      EndsDiffer(x, g, RestActions[2], g);
    } else if k == 3 {
      assert e == "new@" + "post";
      EndsDiffer(x, g, "new@", "post");
    } else if k == 4 {
      var a := ":id/edit";
      assert a[3] == '/';
      assert e == a + g;
      EndsDiffer(x, g, a, g);
    } else if k == 5 {
      assert e == ":id@p" + "atch";
      EndsDiffer(x, g, ":id@p", "atch");
    } else {
      assert e == ":id@de" + "lete";
      EndsDiffer(x, g, ":id@de", "lete");
    }
  }

  /** Any name that is not a standard action keeps its own verb or gets `@get`. */
  lemma CustomEndToken(x: string)
    requires x !in RestActions
    ensures EndToken(x) == if '@' in x then x else x + "@get"
  {
    assert x != RestActions[0] && x != RestActions[1] && x != RestActions[2];
    assert x != RestActions[3] && x != RestActions[4];
    assert x != RestActions[5] && x != RestActions[6];
  }

  /** Trimmed pieces hold no character the text lacks. */
  lemma TrimmedPiecesKeepOut(s: string, c: char)
    requires c !in s
    ensures forall i :: 0 <= i < |TrimmedPieces(s)| ==> c !in TrimmedPieces(s)[i]
  {
    SplitKeepsOut(s, ',', c);
    forall i | 0 <= i < |TrimmedPieces(s)| ensures c !in TrimmedPieces(s)[i] {
      TrimKeepsOut(Split(s, ',')[i], c);
    }
  }

  /** An end token holds a `]` only when its action name does. */
  lemma EndTokenNoBracket(x: string)
    requires ']' !in x
    ensures ']' !in EndToken(x)
  {
  }

  /** The end tokens of `%rest[...]` with plain extra names are distinct, and
      none is the shorthand token, which ends in `]`. */
  lemma ExtendedEndTokens(token: string, s: string)
    requires token == "%rest[" + s + "]"
    requires ']' !in s
    requires PlainExtraNames(TrimmedPieces(s))
    ensures DistinctEndTokens(RestActions + TrimmedPieces(s), token)
  {
    var extras := TrimmedPieces(s);
    var names := RestActions + extras;
    TrimmedPiecesKeepOut(s, ']');
    assert token[|token| - 1] == ']';
    forall i | 0 <= i < |names| ensures EndToken(names[i]) != token {
      NameNotBracketed(extras, i);
      EndTokenNoBracket(names[i]);
    }
    forall i, j | 0 <= i < j < |names| ensures EndToken(names[i]) != EndToken(names[j]) {
      ExtendedPair(extras, i, j);
    }
  }

  lemma NameNotBracketed(extras: seq<string>, i: nat)
    requires i < |RestActions| + |extras|
    requires forall t :: 0 <= t < |extras| ==> ']' !in extras[t]
    ensures ']' !in (RestActions + extras)[i]
  {
    if i < |RestActions| {
      LowercaseAction(i);
      assert (RestActions + extras)[i] == RestActions[i];
    } else {
      assert (RestActions + extras)[i] == extras[i - |RestActions|];
    }
  }

  lemma ExtendedPair(extras: seq<string>, i: nat, j: nat)
    requires PlainExtraNames(extras) && i < j < |RestActions| + |extras|
    ensures EndToken((RestActions + extras)[i]) != EndToken((RestActions + extras)[j])
  {
    var names := RestActions + extras;
    var n := |RestActions|;
    if j < n {
      RestEndTokensDistinct();
      assert names[i] == RestActions[i] && names[j] == RestActions[j];
    } else {
      var y := extras[j - n];
      assert names[j] == y;
      ExtraEndToken(y, 0);
      if i < n {
        assert names[i] == RestActions[i];
        ExtraEndToken(y, i);
      } else {
        var x := extras[i - n];
        assert names[i] == x;
        ExtraEndToken(x, 0);
        EndsDiffer(x, "@get", y, "@get");
      }
    }
  }

  /** `<base>/%rest[a,b]` among other definitions: its seven standard and
      its extra definitions are appended, in that order, and its own entry
      is removed. */
  lemma ExtendedRestExpansion(live: Definitions, base: seq<string>, params: Params, token: string, s: string)
    requires token == "%rest[" + s + "]"
    requires '[' !in s && ']' !in s && '/' !in s
    requires forall i :: 0 <= i < |base| ==> '/' !in base[i]
    requires PlainExtraNames(TrimmedPieces(s))
    requires forall i :: 0 <= i < |RestActions + TrimmedPieces(s)| ==> !HasKey(live, RestUrl(base, (RestActions + TrimmedPieces(s))[i]))
    ensures ExpandOne(live, ImplodeTokens(base + [token]), params)
         == Remove(live, ImplodeTokens(base + [token])) + Generated(base, params, RestActions + TrimmedPieces(s))
  {
    ExtendedRestActions(token, s);
    ExtendedEndTokens(token, s);
    ExtendedTokenShape(token, s);
    ExpandOneFresh(live, base, params, token);
  }

  /** `<base>/%rest` among other definitions: the seven resource definitions
      are appended and its own entry is removed. */
  lemma PlainRestInArray(live: Definitions, base: seq<string>, params: Params, token: string)
    requires token == "%rest"
    requires forall i :: 0 <= i < |base| ==> '/' !in base[i]
    requires forall i :: 0 <= i < |RestActions| ==> !HasKey(live, RestUrl(base, RestActions[i]))
    ensures ExpandOne(live, ImplodeTokens(base + [token]), params)
         == Remove(live, ImplodeTokens(base + [token])) + Generated(base, params, RestActions)
  {
    PlainRestActions(token);
    RestEndTokensDistinct();
    PlainTokenShape(token);
    ExpandOneFresh(live, base, params, token);
  }

  lemma PlainTokenShape(token: string)
    requires token == "%rest"
    ensures StartsWith(token, "%") && '/' !in token
  {
    assert token[0] == '%' && token[1] == 'r' && token[2] == 'e' && token[3] == 's' && token[4] == 't';
    assert token[..1] == "%";
  }

  lemma ExtendedTokenShape(token: string, s: string)
    requires token == "%rest[" + s + "]" && '/' !in s
    ensures StartsWith(token, "%") && '/' !in token
  {
    var h := "%rest[";
    assert h[0] == '%' && h[1] == 'r' && h[2] == 'e' && h[3] == 's' && h[4] == 't' && h[5] == '[';
    assert '/' !in h;
    assert token == h + s + "]";
    assert token[..1] == "%";
  }

  // ---------------------------------------------------------------------------
  // Verbs and the route table of a plain `%rest`

  /** The segments and verb each resource action is routed by, after the
      template's own tokens (`index` gets an empty segment: `/posts//@get`). */
  const RestTails: seq<seq<string>> :=
    [["", "@get"], [":id", "@get"], ["new", "@get"], ["new", "@post"],
     [":id", "edit", "@get"], [":id", "@patch"], [":id", "@delete"]]

  /** The end tokens of the seven resource actions, in order. */
  const RestEndTokens: seq<string> :=
    ["@get", ":id@get", "new@get", "new@post", ":id/edit@get", ":id@patch", ":id@delete"]

  lemma RestEndTokenValues()
    ensures forall k :: 0 <= k < |RestActions| ==> EndToken(RestActions[k]) == RestEndTokens[k]
  {
  }

  /** Pinning the verb of `a@verb` gives the segments `tail`. */
  lemma TailOf(e: string, a: string, verb: string, tail: seq<string>)
    requires e == a + ['@'] + verb && '@' !in a && '@' !in verb
    requires Join(tail, '/') == a + "/@" + verb
    ensures ReplaceAll(e, '@', "/@") == Join(tail, '/')
  {
    ReplaceOnce(a, '@', verb, "/@");
  }

  lemma RestTailText(k: nat)
    requires k < |RestActions|
    ensures ReplaceAll(RestEndTokens[k], '@', "/@") == Join(RestTails[k], '/')
  {
    if k < 2 {
      IndexShowTails(k);
    } else if k < 4 {
      NewCreateTails(k);
    } else if k == 4 {
      EditTail();
    } else {
      UpdateDestroyTails(k);
    }
  }

  /** The tails of `index` and `show`. */
  lemma IndexShowTails(k: nat)
    requires k < 2
    ensures ReplaceAll(RestEndTokens[k], '@', "/@") == Join(RestTails[k], '/')
  {
    var e := RestEndTokens[k];
    var t := RestTails[k];
    if k == 0 {
      TailOf(e, "", "get", t);
    } else {
      TailOf(e, ":id", "get", t);
    }
  }

  /** The tails of `new` and `create`. */
  lemma NewCreateTails(k: nat)
    requires 2 <= k < 4
    ensures ReplaceAll(RestEndTokens[k], '@', "/@") == Join(RestTails[k], '/')
  {
    var e := RestEndTokens[k];
    var t := RestTails[k];
    if k == 2 {
      TailOf(e, "new", "get", t);
    } else {
      TailOf(e, "new", "post", t);
    }
  }

  /** The tail of `edit`. */
  lemma EditTail()
    ensures ReplaceAll(RestEndTokens[4], '@', "/@") == Join(RestTails[4], '/')
  {
    var e := RestEndTokens[4];
    var t := RestTails[4];
    assert t == [":id"] + ["edit", "@get"];
    JoinCons(":id", ["edit", "@get"], '/');
    TailOf(e, ":id/edit", "get", t);
  }

  /** The tails of `update` and `destroy`. */
  lemma UpdateDestroyTails(k: nat)
    requires 5 <= k < 7
    ensures ReplaceAll(RestEndTokens[k], '@', "/@") == Join(RestTails[k], '/')
  {
    var e := RestEndTokens[k];
    var t := RestTails[k];
    if k == 5 {
      TailOf(e, ":id", "patch", t);
    } else {
      TailOf(e, ":id", "delete", t);
    }
  }

  lemma RestTailsShape()
    ensures forall k, j :: 0 <= k < |RestTails| && 0 <= j < |RestTails[k]| ==> '/' !in RestTails[k][j]
    ensures forall i, j :: 0 <= i < j < |RestTails| ==> RestTails[i] != RestTails[j]
  {
  }

  lemma NoAtInPrefix(base: seq<string>)
    requires forall i :: 0 <= i < |base| ==> '@' !in base[i]
    ensures '@' !in TokensPrefix(base)
  {
    if base != [] {
      NotInJoin(base, '/', '@');
    }
  }

  /** Literal template tokens: no `/`, no `@`. */
  ghost predicate TemplateTokens(base: seq<string>)
  {
    forall i :: 0 <= i < |base| ==> '/' !in base[i] && '@' !in base[i]
  }

  /** Pinning the verb of the k-th generated url gives the template's tokens
      followed by the action's segments and verb. */
  lemma RestVerbTokens(base: seq<string>, k: nat)
    requires k < |RestActions| && TemplateTokens(base)
    ensures ExplodeTokens(VerbKey(RestUrl(base, RestActions[k]))) == base + RestTails[k]
  {
    RestVerbKey(base, k);
    ImplodeAppend(base, RestTails[k]);
    var t := base + RestTails[k];
    forall i | 0 <= i < |t| ensures '/' !in t[i] {
      if i >= |base| {
        RestTailSlashFree(k, i - |base|);
      }
    }
    ExplodeImplode(t);
  }

  /** The pinned url of the k-th action is the template's prefix and its tail. */
  lemma RestVerbKey(base: seq<string>, k: nat)
    requires k < |RestActions| && TemplateTokens(base)
    ensures VerbKey(RestUrl(base, RestActions[k])) == TokensPrefix(base) + Join(RestTails[k], '/')
  {
    var e := RestEndTokens[k];
    var p := TokensPrefix(base);
    var url := RestUrl(base, RestActions[k]);
    RestEndTokenAt(k);
    RestUrlSuffix(base, RestActions[k]);
    assert url == p + e;
    assert '@' in url by {
      RestEndTokensPinned(k);
      var i :| 0 <= i < |e| && e[i] == '@';
      assert url[|p| + i] == '@';
    }
    NoAtInPrefix(base);
    ReplaceConcat(p, e, '@', "/@");
    RestTailText(k);
  }

  lemma RestEndTokenAt(k: nat)
    requires k < |RestActions|
    ensures EndToken(RestActions[k]) == RestEndTokens[k]
  {
    RestEndTokenValues();
  }

  lemma RestTailSlashFree(k: nat, j: nat)
    requires k < |RestTails| && j < |RestTails[k]|
    ensures '/' !in RestTails[k][j]
  {
    RestTailsShape();
  }

  lemma RestEndTokensPinned(k: nat)
    requires k < |RestEndTokens|
    ensures '@' in RestEndTokens[k]
  {
    var e := RestEndTokens[k];
    if k == 0 { assert e[0] == '@'; }
    else if k == 1 { assert e[3] == '@'; }
    else if k == 2 { assert e[3] == '@'; }
    else if k == 3 { assert e[3] == '@'; }
    else if k == 4 { assert e[8] == '@'; }
    else { assert e[3] == '@'; }
  }

  /** The seven definitions once their verbs are pinned. */
  function VerbPinned(base: seq<string>, params: Params): (d: Definitions)
    ensures |d| == |RestActions|
  {
    seq(|RestActions|, k requires 0 <= k < |RestActions| =>
      (VerbKey(RestUrl(base, RestActions[k])), RestParams(params, RestActions[k])))
  }

  lemma PlainRestVerbs(base: seq<string>, params: Params)
    requires TemplateTokens(base)
    ensures CompileVerbs(Generated(base, params, RestActions)) == VerbPinned(base, params)
  {
    var g := Generated(base, params, RestActions);
    var keys := VerbKeys(g);
    forall i, j | 0 <= i < j < |keys| ensures keys[i] != keys[j] {
      RestVerbTokens(base, i);
      RestVerbTokens(base, j);
      RestTailsShape();
      assert (base + RestTails[i])[|base|..] == RestTails[i];
      assert (base + RestTails[j])[|base|..] == RestTails[j];
    }
    CombineDistinct(keys, ValuesOf(g));
  }

  /** The compiled route of the k-th resource action. */
  function RestRoute(base: seq<string>, params: Params, k: nat): (string, Route)
    requires k < |RestActions|
  {
    var tokens := CompileTokens(base + RestTails[k]);
    (ImplodeTokens(tokens), Route(tokens, PrefixKeys(RestParams(params, RestActions[k]))))
  }

  const RestPatternLengths: seq<nat> := [5, 18, 8, 9, 23, 20, 21]

  lemma Join2Length(x: string, y: string, sep: char)
    ensures |Join([x, y], sep)| == |x| + 1 + |y|
  {
    JoinCons(x, [y], sep);
    assert [x, y] == [x] + [y];
  }

  lemma Join3Length(x: string, y: string, z: string, sep: char)
    ensures |Join([x, y, z], sep)| == |x| + |y| + |z| + 2
  {
    JoinCons(x, [y, z], sep);
    assert [x, y, z] == [x] + [y, z];
    Join2Length(y, z, sep);
  }

  lemma CompileId(t: string)
    requires t == ":id"
    ensures CompileToken(t) == CaptureGroup("id") && |CompileToken(t)| == 13
  {
    assert StartsWith(t, ":") && t[1..] == "id";
  }

  lemma CompileKeeps(t: string)
    requires t == [] || t[0] != ':'
    ensures CompileToken(t) == t
  {
  }

  lemma RestTailPattern(k: nat)
    requires k < |RestActions|
    ensures |Join(CompileTokens(RestTails[k]), '/')| == RestPatternLengths[k]
  {
    var t := RestTails[k];
    var c := CompileTokens(t);
    if k == 0 || k == 2 || k == 3 {
      assert |t| == 2;
      CompileKeeps(t[0]);
      CompileKeeps(t[1]);
      assert c == [t[0], t[1]];
      Join2Length(t[0], t[1], '/');
    } else if k == 4 {
      assert |t| == 3;
      CompileId(t[0]);
      CompileKeeps(t[1]);
      CompileKeeps(t[2]);
      assert c == [c[0], t[1], t[2]];
      Join3Length(c[0], t[1], t[2], '/');
    } else {
      assert |t| == 2;
      CompileId(t[0]);
      CompileKeeps(t[1]);
      assert c == [c[0], t[1]];
      Join2Length(c[0], t[1], '/');
    }
  }

  /** A compiled `%rest` pattern is the template's prefix and a tail of known length. */
  lemma RestPatternLength(base: seq<string>, params: Params, k: nat)
    requires k < |RestActions|
    ensures |RestRoute(base, params, k).0| == |TokensPrefix(CompileTokens(base))| + RestPatternLengths[k]
  {
    var cb := CompileTokens(base);
    var ct := CompileTokens(RestTails[k]);
    RestTailPattern(k);
    assert CompileTokens(base + RestTails[k]) == cb + ct;
    ImplodeAppend(cb, ct);
  }

  lemma RestPatternsDistinct(base: seq<string>, params: Params)
    ensures forall i, j :: 0 <= i < j < |RestActions| ==> RestRoute(base, params, i).0 != RestRoute(base, params, j).0
  {
    RestPatternLengthsDistinct();
    forall i, j | 0 <= i < j < |RestActions| ensures RestRoute(base, params, i).0 != RestRoute(base, params, j).0 {
      RestPatternLength(base, params, i);
      RestPatternLength(base, params, j);
    }
  }

  lemma RestPatternLengthsDistinct()
    ensures forall i, j :: 0 <= i < j < |RestPatternLengths| ==> RestPatternLengths[i] != RestPatternLengths[j]
  {
  }

  /** The table as one route per definition, in order. */
  function RouteList(defs: Definitions): (t: RouteTable)
    ensures |t| == |defs|
    ensures forall i :: 0 <= i < |defs| ==> t[i] == CompileRoute(defs[i].0, defs[i].1)
  {
    seq(|defs|, i requires 0 <= i < |defs| => CompileRoute(defs[i].0, defs[i].1))
  }

  /** With distinct patterns the table holds one route per definition, in order. */
  lemma {:induction false} BuildTableDistinct(defs: Definitions)
    requires forall i, j :: 0 <= i < j < |defs| ==> CompileRoute(defs[i].0, defs[i].1).0 != CompileRoute(defs[j].0, defs[j].1).0
    ensures BuildTable(defs) == RouteList(defs)
  {
    if defs != [] {
      var n := |defs| - 1;
      var init := defs[..n];
      var t := RouteList(init);
      var e := CompileRoute(defs[n].0, defs[n].1);
      assert BuildTable(init) == t by {
        assert forall i :: 0 <= i < n ==> init[i] == defs[i];
        BuildTableDistinct(init);
      }
      assert !HasKey(t, e.0) by {
        forall q | 0 <= q < |t| ensures t[q].0 != e.0 {
          assert t[q] == CompileRoute(defs[q].0, defs[q].1);
        }
      }
      assert BuildTable(defs) == t + [e];
      RouteListSnoc(defs);
    }
  }

  lemma RouteListSnoc(defs: Definitions)
    requires defs != []
    ensures RouteList(defs) == RouteList(defs[..|defs| - 1]) + [CompileRoute(defs[|defs| - 1].0, defs[|defs| - 1].1)]
  {
    var n := |defs| - 1;
    var r := RouteList(defs[..n]) + [CompileRoute(defs[n].0, defs[n].1)];
    forall q | 0 <= q < |defs| ensures RouteList(defs)[q] == r[q] {
      if q < n {
        assert defs[..n][q] == defs[q];
      } else {
        assert r[q] == CompileRoute(defs[n].0, defs[n].1);
      }
    }
  }

  lemma RestCompileRoute(base: seq<string>, params: Params, k: nat)
    requires k < |RestActions| && TemplateTokens(base)
    ensures CompileRoute(VerbPinned(base, params)[k].0, VerbPinned(base, params)[k].1) == RestRoute(base, params, k)
  {
    RestVerbTokens(base, k);
  }

  /** The seven routes of a plain `%rest`. */
  function RestTable(base: seq<string>, params: Params): (t: RouteTable)
    ensures |t| == |RestActions|
    ensures forall k :: 0 <= k < |RestActions| ==> t[k] == RestRoute(base, params, k)
  {
    seq(|RestActions|, k requires 0 <= k < |RestActions| => RestRoute(base, params, k))
  }

  /** A plain `%rest` template compiles to seven routes, in the order index,
      show, new, create, edit, update, destroy, each with its segments, verb
      and `_`-prefixed metadata naming its action. */
  lemma PlainRestTable(base: seq<string>, params: Params, token: string)
    requires token == "%rest" && TemplateTokens(base)
    ensures CompiledTable([(ImplodeTokens(base + [token]), params)]) == RestTable(base, params)
  {
    PlainRestExpansion(base, params, token);
    PlainRestVerbs(base, params);
    var v := VerbPinned(base, params);
    forall k | 0 <= k < |RestActions| ensures CompileRoute(v[k].0, v[k].1) == RestRoute(base, params, k) {
      RestCompileRoute(base, params, k);
    }
    RestPatternsDistinct(base, params);
    BuildTableDistinct(v);
  }

  // ---------------------------------------------------------------------------
  // Resolution

  lemma {:induction false} ResolveFromFirst(routes: RouteTable, from: nat, segs: seq<string>, request: string, decode: string -> string, i: nat)
    requires from <= i < |routes|
    requires RouteMatches(routes[i].1.tokens, segs)
    requires forall j :: from <= j < i ==> !RouteMatches(routes[j].1.tokens, segs)
    ensures ResolveFrom(routes, from, segs, request, decode)
         == Some(MergeMatches(routes[i].1.params, Captures(routes[i].1.tokens, segs), request, decode))
    decreases i - from
  {
    if from < i {
      ResolveFromFirst(routes, from + 1, segs, request, decode, i);
    }
  }

  lemma {:induction false} ResolveFromNone(routes: RouteTable, from: nat, segs: seq<string>, request: string, decode: string -> string)
    ensures ResolveFrom(routes, from, segs, request, decode) == None
        <==> forall j :: from <= j < |routes| ==> !RouteMatches(routes[j].1.tokens, segs)
    decreases |routes| - from
  {
    if from < |routes| {
      ResolveFromNone(routes, from + 1, segs, request, decode);
    }
  }

  /** The segments a request key is matched by. */
  function Segments(path: string, verb: string): seq<string>
  {
    ExplodeTokens(RequestKey(path, verb))
  }

  /** `resolve` returns the first route in table order whose pattern matches,
      with its metadata merged with the decoded captures. */
  lemma ResolveFirstMatch(routes: RouteTable, path: string, verb: string, decode: string -> string, i: nat)
    requires i < |routes|
    requires RouteMatches(routes[i].1.tokens, Segments(path, verb))
    requires forall j :: 0 <= j < i ==> !RouteMatches(routes[j].1.tokens, Segments(path, verb))
    ensures ResolveIn(routes, path, verb, decode)
         == Some(MergeMatches(routes[i].1.params, Captures(routes[i].1.tokens, Segments(path, verb)), RequestKey(path, verb), decode))
  {
    ResolveFromFirst(routes, 0, Segments(path, verb), RequestKey(path, verb), decode, i);
  }

  /** `resolve` returns `false` exactly when no route matches. */
  lemma ResolveNoMatch(routes: RouteTable, path: string, verb: string, decode: string -> string)
    ensures ResolveIn(routes, path, verb, decode) == None
        <==> forall i :: 0 <= i < |routes| ==> !RouteMatches(routes[i].1.tokens, Segments(path, verb))
  {
    ResolveFromNone(routes, 0, Segments(path, verb), RequestKey(path, verb), decode);
  }

  /** A path without its leading `/` resolves like the path with it. */
  lemma ResolveNormalizes(routes: RouteTable, path: string, verb: string, decode: string -> string)
    requires !StartsWith(path, "/")
    ensures ResolveIn(routes, path, verb, decode) == ResolveIn(routes, "/" + path, verb, decode)
  {
    assert StartsWith("/" + path, "/");
  }

  /** Every parameter token reads back as its group, with its name. */
  lemma ParseCaptureGroup(name: string)
    ensures ParseCapture(CaptureGroup(name)) == Some(name)
  {
    var t := CaptureGroup(name);
    assert t[..4] == CapturePrefix;
    assert t[|t| - 7..] == CaptureSuffix;
    assert t[4..|t| - 7] == name;
  }

  /** A literal token is never read as a group. */
  lemma PlainNoCapture(t: string)
    requires PlainLiteral(t)
    ensures ParseCapture(t) == None
  {
    var forbidden := "\\^$.[]|()?*+{}#";
    assert forbidden[7] == '(';
    if |t| >= 11 {
      assert t[0] != '(';
      assert t[..4][0] == t[0];
      assert CapturePrefix[0] == '(';
      assert t[..4] != CapturePrefix;
    }
  }

  /** The group names PCRE2 reads from a template's `:name` tokens, left to
      right: each token's text after `:`, up to its first `>`. */
  function ParamNames(tokens: seq<string>): seq<string>
  {
    if tokens == [] then []
    else
      var rest := ParamNames(tokens[1..]);
      if StartsWith(tokens[0], ":") then [HeadGroup(tokens[0][1..]).name] + rest else rest
  }

  /** The groups of a compiled template are its `:name` tokens, in order, so
      its route can match only when those names are valid group names and
      pairwise distinct: `/posts/:post-id`, `/:1st`, `/posts/:` and
      `/:id/:id` never match anything. */
  lemma {:induction false} CompiledGroupNames(tokens: seq<string>)
    requires forall i :: 0 <= i < |tokens| && !StartsWith(tokens[i], ":") ==> PlainLiteral(tokens[i])
    ensures GroupNames(CompileTokens(tokens)) == ParamNames(tokens)
    ensures PatternCompiles(CompileTokens(tokens)) <==>
      (forall i :: 0 <= i < |ParamNames(tokens)| ==> ValidGroupName(ParamNames(tokens)[i]))
      && (forall i, j :: 0 <= i < j < |ParamNames(tokens)| ==> ParamNames(tokens)[i] != ParamNames(tokens)[j])
  {
    if tokens != [] {
      var c := CompileTokens(tokens);
      assert c[1..] == CompileTokens(tokens[1..]);
      CompiledGroupNames(tokens[1..]);
      if StartsWith(tokens[0], ":") {
        ParseCaptureGroup(tokens[0][1..]);
      } else {
        PlainNoCapture(tokens[0]);
      }
    }
  }

  /** A head without `>` is the group's name, and the group's match has no
      lead; with one, the name stops at the first `>`, holds none, and the
      head is the name, that `>`, and the lead without its final `>`. */
  lemma HeadGroupCases(head: string)
    ensures '>' !in HeadGroup(head).name
    ensures '>' !in head ==> HeadGroup(head) == Group(head, "")
    ensures '>' in head ==>
      var g := HeadGroup(head);
      |g.lead| >= 1 && g.lead[|g.lead| - 1] == '>' && head == g.name + ">" + g.lead[..|g.lead| - 1]
  {
    var k := NameEnd(head);
    if k < |head| {
      var g := HeadGroup(head);
      assert g.lead[..|g.lead| - 1] == head[k + 1..];
      assert head == head[..k] + ">" + head[k + 1..];
    }
  }

  lemma AngleHead()
    ensures HeadGroup("a>b") == Group("a", "b>") && ValidGroupName("a")
  {
    var head := "a>b";
    assert head[0] == 'a' && head[1] == '>' && head[1..] == ">b";
    assert NameEnd(">b") == 0;
    assert NameEnd(head) == 1;
    var a := "a";
    assert |a| == 1 && a[0] == 'a';
  }

  lemma AngleTokens()
    ensures CompileTokens(["x", ":a>b", "@get"]) == ["x", CaptureGroup("a>b"), "@get"]
  {
    var tokens := ["x", ":a>b", "@get"];
    var c := CompileTokens(tokens);
    assert ":a>b"[1..] == "a>b";
    var x, get := "x", "@get";
    assert x[0] == 'x' && get[0] == '@' && ":"[0] == ':';
    assert x[..1] != ":" && get[..1] != ":";
    assert c[0] == CompileToken(x) == x && c[2] == CompileToken(get) == get;
  }

  lemma AngleGroups()
    ensures GroupNames(["x", CaptureGroup("a>b"), "@get"]) == ["a"]
  {
    var c := ["x", CaptureGroup("a>b"), "@get"];
    AngleHead();
    ParseCaptureGroup("a>b");
    var x, get := "x", "@get";
    assert x[0] == 'x' && get[0] == '@';
    assert ParseCapture(x) == None && ParseCapture(get) == None;
    assert GroupNameOf(c[0]) == [] && GroupNameOf(c[1]) == ["a"] && GroupNameOf(c[2]) == [];
    assert c[1..][0] == c[1] && c[1..][1..] == c[2..] && c[2..][0] == c[2] && c[2..][1..] == [];
    assert GroupNames(c[2..]) == [];
    assert GroupNames(c[1..]) == ["a"];
  }

  lemma AngleSegments()
    ensures SegmentMatches("x", "x") && SegmentMatches("@get", "@get")
    ensures SegmentMatches(CaptureGroup("a>b"), "b>c") && !SegmentMatches(CaptureGroup("a>b"), "b>")
    ensures ParseCapture("x") == None && ParseCapture("@get") == None
  {
    AngleHead();
    ParseCaptureGroup("a>b");
    var x, get := "x", "@get";
    assert x[0] == 'x' && get[0] == '@';
    assert "b>c"[..2] == "b>";
  }

  lemma AngleCaptures()
    ensures Captures(["x", CaptureGroup("a>b"), "@get"], ["x", "b>c", "@get"]) == [("a", "b>c")]
  {
    AngleHead();
    AngleSegments();
    ParseCaptureGroup("a>b");
    var c := ["x", CaptureGroup("a>b"), "@get"];
    var segs := ["x", "b>c", "@get"];
    assert c[1..][0] == c[1] && c[1..][1..] == c[2..] && c[2..][0] == c[2] && c[2..][1..] == [];
    assert segs[1..][0] == "b>c" && segs[1..][1..] == segs[2..] && segs[2..][1..] == [];
    assert Captures(c[2..], segs[2..]) == [];
    assert Captures(c[1..], segs[1..]) == [("a", "b>c")];
  }

  /** PCRE2 reads `:a>b`, compiled to `(?P<a>b>[^/]+)`, as the group `a`
      whose segment starts with `b>`: GET `/x/b>c` matches the route of
      `/x/:a>b` and captures `a` = `b>c`, while `/x/b>` does not match. */
  lemma AngleInName()
    ensures HeadGroup("a>b") == Group("a", "b>") && ValidGroupName("a")
    ensures RouteMatches(CompileTokens(["x", ":a>b", "@get"]), ["x", "b>c", "@get"])
    ensures Captures(CompileTokens(["x", ":a>b", "@get"]), ["x", "b>c", "@get"]) == [("a", "b>c")]
    ensures !RouteMatches(CompileTokens(["x", ":a>b", "@get"]), ["x", "b>", "@get"])
  {
    AngleHead();
    AngleTokens();
    AngleGroups();
    AngleSegments();
    AngleCaptures();
    var c := ["x", CaptureGroup("a>b"), "@get"];
    assert TokensMatch(c, ["x", "b>c", "@get"]);
    assert !SegmentMatches(c[1], ["x", "b>", "@get"][1]);
  }

  /** Group names PCRE2 accepts and refuses. */
  lemma GroupNameExamples()
    ensures ValidGroupName("id") && ValidGroupName("post_id")
    ensures !ValidGroupName("") && !ValidGroupName("1st") && !ValidGroupName("post-id")
  {
    assert "post-id"[4] == '-';
    assert "1st"[0] == '1';
  }

  lemma {:induction false} ResolveFromShift(routes: RouteTable, i: nat, j: nat, segs: seq<string>, request: string, decode: string -> string)
    requires i < |routes| && i < j
    ensures ResolveFrom(routes, j, segs, request, decode) == ResolveFrom(routes[..i] + routes[i + 1..], j - 1, segs, request, decode)
    decreases |routes| - j
  {
    var rest := routes[..i] + routes[i + 1..];
    if j < |routes| {
      assert rest[j - 1] == routes[j];
      ResolveFromShift(routes, i, j + 1, segs, request, decode);
    }
  }

  lemma {:induction false} ResolveFromSkip(routes: RouteTable, i: nat, from: nat, segs: seq<string>, request: string, decode: string -> string)
    requires from <= i < |routes| && !PatternCompiles(routes[i].1.tokens)
    ensures ResolveFrom(routes, from, segs, request, decode) == ResolveFrom(routes[..i] + routes[i + 1..], from, segs, request, decode)
    decreases i - from
  {
    var rest := routes[..i] + routes[i + 1..];
    if from < i {
      assert rest[from] == routes[from];
      ResolveFromSkip(routes, i, from + 1, segs, request, decode);
    } else {
      ResolveFromShift(routes, i, i + 1, segs, request, decode);
    }
  }

  /** A route whose pattern PCRE2 refuses is skipped: resolving against the
      table is the same as resolving against the table without it. */
  lemma ResolveSkipsUncompiled(routes: RouteTable, path: string, verb: string, decode: string -> string, i: nat)
    requires i < |routes| && !PatternCompiles(routes[i].1.tokens)
    ensures ResolveIn(routes, path, verb, decode) == ResolveIn(routes[..i] + routes[i + 1..], path, verb, decode)
  {
    ResolveFromSkip(routes, i, 0, Segments(path, verb), RequestKey(path, verb), decode);
  }

  /** Literal template tokens, none of them a parameter. */
  ghost predicate LiteralTokens(base: seq<string>)
  {
    TemplateTokens(base) && forall i :: 0 <= i < |base| ==> PlainLiteral(base[i]) && (base[i] == [] || base[i][0] != ':')
  }

  lemma LiteralBase(base: seq<string>)
    requires LiteralTokens(base)
    ensures CompileTokens(base) == base
    ensures TokensMatch(base, base)
    ensures Captures(base, base) == []
  {
    forall i | 0 <= i < |base| ensures ParseCapture(base[i]) == None {
      PlainNoCapture(base[i]);
    }
    CapturesNone(base, base);
  }

  lemma {:induction false} CapturesNone(pts: seq<string>, segs: seq<string>)
    requires |pts| == |segs|
    requires forall i :: 0 <= i < |pts| ==> ParseCapture(pts[i]) == None
    ensures Captures(pts, segs) == []
  {
    if pts != [] {
      CapturesNone(pts[1..], segs[1..]);
    }
  }

  lemma TokensMatchAppend(a1: seq<string>, a2: seq<string>, b1: seq<string>, b2: seq<string>)
    requires |a1| == |b1| && |a2| == |b2|
    ensures TokensMatch(a1 + a2, b1 + b2) == (TokensMatch(a1, b1) && TokensMatch(a2, b2))
  {
    if TokensMatch(a1 + a2, b1 + b2) {
      forall i | 0 <= i < |a2| ensures SegmentMatches(a2[i], b2[i]) {
        assert (a1 + a2)[|a1| + i] == a2[i] && (b1 + b2)[|a1| + i] == b2[i];
      }
      forall i | 0 <= i < |a1| ensures SegmentMatches(a1[i], b1[i]) {
        assert (a1 + a2)[i] == a1[i] && (b1 + b2)[i] == b1[i];
      }
    }
  }

  lemma {:induction false} CapturesAppend(a1: seq<string>, a2: seq<string>, b1: seq<string>, b2: seq<string>)
    requires |a1| == |b1| && |a2| == |b2|
    ensures Captures(a1 + a2, b1 + b2) == Captures(a1, b1) + Captures(a2, b2)
  {
    if a1 == [] {
      assert a1 + a2 == a2 && b1 + b2 == b2;
    } else {
      CapturesAppend(a1[1..], a2, b1[1..], b2);
      assert (a1 + a2)[1..] == a1[1..] + a2;
      assert (b1 + b2)[1..] == b1[1..] + b2;
      assert (a1 + a2)[0] == a1[0] && (b1 + b2)[0] == b1[0];
    }
  }

  /** The request key of a path made of tokens `a` splits into `a` and the verb. */
  lemma RequestSegments(a: seq<string>, verb: string)
    requires |a| >= 1 && '/' !in verb
    requires forall i :: 0 <= i < |a| ==> '/' !in a[i]
    ensures Segments(ImplodeTokens(a), verb) == a + ["@" + verb]
  {
    var path := ImplodeTokens(a);
    assert StartsWith(path, "/");
    ImplodeAppend(a, ["@" + verb]);
    assert RequestKey(path, verb) == ImplodeTokens(a + ["@" + verb]);
    assert '/' !in "@" + verb;
    ExplodeImplode(a + ["@" + verb]);
  }

  const IdGroup: string := "(?P<id>[^/]+)"

  /** The compiled tails of the seven routes. */
  const RestCompiledTails: seq<seq<string>> :=
    [["", "@get"], [IdGroup, "@get"], ["new", "@get"], ["new", "@post"],
     [IdGroup, "edit", "@get"], [IdGroup, "@patch"], [IdGroup, "@delete"]]

  lemma RestCompiledTail(k: nat)
    requires k < |RestActions|
    ensures CompileTokens(RestTails[k]) == RestCompiledTails[k]
  {
    var t := RestTails[k];
    var c := CompileTokens(t);
    assert IdGroup == CaptureGroup("id");
    if k == 0 || k == 2 || k == 3 {
      assert |t| == 2;
      CompileKeeps(t[0]);
      CompileKeeps(t[1]);
    } else if k == 4 {
      assert |t| == 3;
      CompileId(t[0]);
      CompileKeeps(t[1]);
      CompileKeeps(t[2]);
    } else {
      assert |t| == 2;
      CompileId(t[0]);
      CompileKeeps(t[1]);
    }
  }

  lemma RestRouteTokens(base: seq<string>, params: Params, k: nat)
    requires k < |RestActions| && LiteralTokens(base)
    ensures RestRoute(base, params, k).1.tokens == base + RestCompiledTails[k]
    ensures ParseCapture(IdGroup) == Some("id")
  {
    LiteralBase(base);
    ParseCaptureGroup("id");
    assert IdGroup == CaptureGroup("id");
    var t := RestTails[k];
    assert CompileTokens(base + t) == CompileTokens(base) + CompileTokens(t);
    RestCompiledTail(k);
  }

  /** Matching route k against the template's tokens followed by `tail`. */
  lemma RestMatch(base: seq<string>, params: Params, k: nat, tail: seq<string>)
    requires k < |RestActions| && LiteralTokens(base) && |tail| == |RestCompiledTails[k]|
    ensures TokensMatch(RestRoute(base, params, k).1.tokens, base + tail) == TokensMatch(RestCompiledTails[k], tail)
    ensures TokensMatch(RestCompiledTails[k], tail) ==>
      Captures(RestRoute(base, params, k).1.tokens, base + tail) == Captures(RestCompiledTails[k], tail)
    ensures ParseCapture(IdGroup) == Some("id")
  {
    RestRouteTokens(base, params, k);
    LiteralBase(base);
    TokensMatchAppend(base, RestCompiledTails[k], base, tail);
    CapturesAppend(base, RestCompiledTails[k], base, tail);
  }

  // ---------------------------------------------------------------------------
  // Requests against the routes of a plain `%rest`

  /** The metadata of the k-th route names the k-th action. */
  lemma RestRouteParams(base: seq<string>, params: Params, k: nat)
    requires k < |RestActions|
    ensures RestTable(base, params)[k].1.params == PrefixKeys(RestParams(params, RestActions[k]))
  {
  }

  /** Whether the k-th compiled tail matches the request's segments after the template's. */
  predicate TailMatches(k: nat, tail: seq<string>)
    requires k < |RestCompiledTails|
  {
    |tail| == |RestCompiledTails[k]| && TokensMatch(RestCompiledTails[k], tail)
  }

  lemma {:induction false} GroupNamesAppend(a: seq<string>, b: seq<string>)
    ensures GroupNames(a + b) == GroupNames(a) + GroupNames(b)
  {
    if a == [] {
      assert a + b == b;
    } else {
      var ab := a + b;
      var h := GroupNameOf(a[0]);
      assert ab[0] == a[0] && ab[1..] == a[1..] + b;
      assert GroupNames(ab) == h + GroupNames(a[1..] + b);
      GroupNamesAppend(a[1..], b);
      assert GroupNames(a) == h + GroupNames(a[1..]);
      assert h + (GroupNames(a[1..]) + GroupNames(b)) == (h + GroupNames(a[1..])) + GroupNames(b);
    }
  }

  lemma {:induction false} NoGroupNames(pts: seq<string>)
    requires forall i :: 0 <= i < |pts| ==> ParseCapture(pts[i]) == None
    ensures GroupNames(pts) == []
  {
    if pts != [] {
      NoGroupNames(pts[1..]);
    }
  }

  lemma RestTailGroupNames(k: nat)
    requires k < |RestActions|
    ensures GroupNames(RestCompiledTails[k]) == if k == 0 || k == 2 || k == 3 then [] else ["id"]
  {
    var t := RestCompiledTails[k];
    VerbFacts();
    if k == 0 || k == 2 || k == 3 {
      NoGroupNames(t);
    } else if k == 4 {
      var r := ["edit", "@get"];
      assert t == [IdGroup] + r;
      NoGroupNames(r);
    } else {
      var r := [t[1]];
      assert t == [IdGroup] + r;
      NoGroupNames(r);
    }
  }

  /** The only group of a `%rest` route over literal tokens is `id`. */
  lemma RestGroupNames(base: seq<string>, params: Params, k: nat)
    requires k < |RestActions| && LiteralTokens(base)
    ensures GroupNames(RestRoute(base, params, k).1.tokens) == GroupNames(RestCompiledTails[k])
    ensures PatternCompiles(RestRoute(base, params, k).1.tokens)
  {
    var tail := RestCompiledTails[k];
    RestRouteTokens(base, params, k);
    LiteralGroupNames(base);
    GroupNamesAppend(base, tail);
    RestTailCompiles(k);
  }

  lemma LiteralGroupNames(base: seq<string>)
    requires LiteralTokens(base)
    ensures GroupNames(base) == []
  {
    forall i | 0 <= i < |base| ensures ParseCapture(base[i]) == None {
      PlainNoCapture(base[i]);
    }
    NoGroupNames(base);
  }

  lemma RestTailCompiles(k: nat)
    requires k < |RestActions|
    ensures PatternCompiles(RestCompiledTails[k])
  {
    RestTailGroupNames(k);
    IdGroupName();
  }

  lemma IdGroupName()
    ensures ValidGroupName("id")
  {
    var n := "id";
    assert |n| == 2 && n[0] == 'i' && n[1] == 'd';
  }

  lemma RestTableMatch(base: seq<string>, params: Params, k: nat, tail: seq<string>)
    requires k < |RestActions| && LiteralTokens(base)
    ensures RouteMatches(RestTable(base, params)[k].1.tokens, base + tail) <==> TailMatches(k, tail)
    ensures TailMatches(k, tail) ==>
      Captures(RestTable(base, params)[k].1.tokens, base + tail) == Captures(RestCompiledTails[k], tail)
  {
    RestGroupNames(base, params, k);
    RestRouteTokens(base, params, k);
    if |tail| == |RestCompiledTails[k]| {
      RestMatch(base, params, k, tail);
    }
  }

  /** The k-th route of a `%rest` answers a request whose segments after the
      template's match its tail first. */
  lemma RestResolve(base: seq<string>, params: Params, path: string, verb: string, decode: string -> string, k: nat, tail: seq<string>)
    requires LiteralTokens(base) && k < |RestActions|
    requires Segments(path, verb) == base + tail
    requires TailMatches(k, tail)
    requires forall j :: 0 <= j < k ==> !TailMatches(j, tail)
    ensures ResolveIn(RestTable(base, params), path, verb, decode)
         == Some(MergeMatches(PrefixKeys(RestParams(params, RestActions[k])), Captures(RestCompiledTails[k], tail), RequestKey(path, verb), decode))
  {
    var table := RestTable(base, params);
    forall j | 0 <= j < k ensures !RouteMatches(table[j].1.tokens, Segments(path, verb)) {
      RestTableMatch(base, params, j, tail);
    }
    RestTableMatch(base, params, k, tail);
    ResolveFirstMatch(table, path, verb, decode, k);
  }

  /** No route of a `%rest` answers when no tail matches. */
  lemma RestResolveNone(base: seq<string>, params: Params, path: string, verb: string, decode: string -> string, tail: seq<string>)
    requires LiteralTokens(base)
    requires Segments(path, verb) == base + tail
    requires forall j :: 0 <= j < |RestActions| ==> !TailMatches(j, tail)
    ensures ResolveIn(RestTable(base, params), path, verb, decode) == None
  {
    var table := RestTable(base, params);
    forall j | 0 <= j < |table| ensures !RouteMatches(table[j].1.tokens, Segments(path, verb)) {
      RestTableMatch(base, params, j, tail);
    }
    ResolveNoMatch(table, path, verb, decode);
  }

  lemma VerbFacts()
    ensures ParseCapture("@get") == None && ParseCapture("@post") == None
    ensures ParseCapture("@patch") == None && ParseCapture("@delete") == None
    ensures ParseCapture("new") == None && ParseCapture("edit") == None && ParseCapture("") == None
    ensures ParseCapture(IdGroup) == Some("id")
  {
    ParseCaptureGroup("id");
    assert IdGroup == CaptureGroup("id");
  }

  lemma OneCapture(t: string, rest: seq<string>, s: string, segs: seq<string>)
    requires ParseCapture(t) == Some("id") && |rest| == |segs|
    requires forall i :: 0 <= i < |rest| ==> ParseCapture(rest[i]) == None
    ensures Captures([t] + rest, [s] + segs) == [("id", s)]
  {
    CapturesNone(rest, segs);
    assert ([t] + rest)[1..] == rest && ([s] + segs)[1..] == segs;
  }

  /** GET on the template's path with a trailing `/` reaches `index`
      (`index` is compiled to `<base>//@get`). */
  lemma RestIndexWithSlash(base: seq<string>, params: Params, decode: string -> string)
    requires LiteralTokens(base)
    ensures ResolveIn(RestTable(base, params), ImplodeTokens(base + [""]), "get", decode)
         == Some(MergeMatches(PrefixKeys(RestParams(params, "index")), [], RequestKey(ImplodeTokens(base + [""]), "get"), decode))
  {
    var tail := ["", "@get"];
    assert "@" + "get" == "@get";
    assert base + [""] + ["@" + "get"] == base + tail;
    RequestSegments(base + [""], "get");
    VerbFacts();
    assert TailMatches(0, tail);
    CapturesNone(RestCompiledTails[0], tail);
    assert RestActions[0] == "index";
    RestResolve(base, params, ImplodeTokens(base + [""]), "get", decode, 0, tail);
  }

  /** Without the trailing `/` no route of a `%rest` matches, whatever the verb. */
  lemma RestIndexWithoutSlash(base: seq<string>, params: Params, verb: string, decode: string -> string)
    requires LiteralTokens(base) && |base| >= 1 && '/' !in verb
    ensures ResolveIn(RestTable(base, params), ImplodeTokens(base), verb, decode) == None
  {
    RequestSegments(base, verb);
    var tail := ["@" + verb];
    assert forall j :: 0 <= j < |RestActions| ==> |RestCompiledTails[j]| >= 2;
    RestResolveNone(base, params, ImplodeTokens(base), verb, decode, tail);
  }

  /** GET on `<base>/<id>` reaches `show` with `id` captured. Since the literal
      `new` is such an id and `show` comes first in the table, GET on
      `<base>/new` reaches `show` with id `new`: the `new` route `%rest`
      generates is never reached by GET. */
  lemma RestShow(base: seq<string>, params: Params, id: string, decode: string -> string)
    requires LiteralTokens(base) && id != "" && '/' !in id
    ensures ResolveIn(RestTable(base, params), ImplodeTokens(base + [id]), "get", decode)
         == Some(MergeMatches(PrefixKeys(RestParams(params, "show")), [("id", id)], RequestKey(ImplodeTokens(base + [id]), "get"), decode))
  {
    var tail := [id, "@get"];
    assert "@" + "get" == "@get";
    assert base + [id] + ["@" + "get"] == base + tail;
    RequestSegments(base + [id], "get");
    VerbFacts();
    assert !SegmentMatches("", id);
    assert RestCompiledTails[0][0] == "" && tail[0] == id;
    assert !TailMatches(0, tail);
    assert TailMatches(1, tail);
    assert Captures(RestCompiledTails[1], tail) == [("id", id)] by {
      assert RestCompiledTails[1] == [IdGroup] + ["@get"] && tail == [id] + ["@get"];
      OneCapture(IdGroup, ["@get"], id, ["@get"]);
    }
    assert RestActions[1] == "show";
    RestResolve(base, params, ImplodeTokens(base + [id]), "get", decode, 1, tail);
  }

  /** POST on `<base>/new` reaches `create`. */
  lemma RestCreate(base: seq<string>, params: Params, decode: string -> string)
    requires LiteralTokens(base)
    ensures ResolveIn(RestTable(base, params), ImplodeTokens(base + ["new"]), "post", decode)
         == Some(MergeMatches(PrefixKeys(RestParams(params, "create")), [], RequestKey(ImplodeTokens(base + ["new"]), "post"), decode))
  {
    var tail := ["new", "@post"];
    assert "@" + "post" == "@post";
    assert base + ["new"] + ["@" + "post"] == base + tail;
    RequestSegments(base + ["new"], "post");
    VerbFacts();
    forall j | 0 <= j < 3 ensures !TailMatches(j, tail) {
      assert !SegmentMatches(RestCompiledTails[j][1], "@post");
    }
    assert TailMatches(3, tail);
    CapturesNone(RestCompiledTails[3], tail);
    assert RestActions[3] == "create";
    RestResolve(base, params, ImplodeTokens(base + ["new"]), "post", decode, 3, tail);
  }

  /** GET on `<base>/<id>/edit` reaches `edit` with `id` captured. */
  lemma RestEdit(base: seq<string>, params: Params, id: string, decode: string -> string)
    requires LiteralTokens(base) && id != "" && '/' !in id
    ensures ResolveIn(RestTable(base, params), ImplodeTokens(base + [id, "edit"]), "get", decode)
         == Some(MergeMatches(PrefixKeys(RestParams(params, "edit")), [("id", id)], RequestKey(ImplodeTokens(base + [id, "edit"]), "get"), decode))
  {
    var tail := [id, "edit", "@get"];
    assert "@" + "get" == "@get";
    assert base + [id, "edit"] + ["@" + "get"] == base + tail;
    RequestSegments(base + [id, "edit"], "get");
    VerbFacts();
    assert forall j :: 0 <= j < 4 ==> |RestCompiledTails[j]| == 2;
    assert TailMatches(4, tail);
    assert Captures(RestCompiledTails[4], tail) == [("id", id)] by {
      assert RestCompiledTails[4] == [IdGroup] + ["edit", "@get"] && tail == [id] + ["edit", "@get"];
      OneCapture(IdGroup, ["edit", "@get"], id, ["edit", "@get"]);
    }
    assert RestActions[4] == "edit";
    RestResolve(base, params, ImplodeTokens(base + [id, "edit"]), "get", decode, 4, tail);
  }

  /** PATCH on `<base>/<id>` reaches `update` with `id` captured. */
  lemma RestUpdate(base: seq<string>, params: Params, id: string, decode: string -> string)
    requires LiteralTokens(base) && id != "" && '/' !in id
    ensures ResolveIn(RestTable(base, params), ImplodeTokens(base + [id]), "patch", decode)
         == Some(MergeMatches(PrefixKeys(RestParams(params, "update")), [("id", id)], RequestKey(ImplodeTokens(base + [id]), "patch"), decode))
  {
    var tail := [id, "@patch"];
    assert "@" + "patch" == "@patch";
    assert base + [id] + ["@" + "patch"] == base + tail;
    RequestSegments(base + [id], "patch");
    VerbFacts();
    forall j | 0 <= j < 5 ensures !TailMatches(j, tail) {
      if j != 4 {
        assert !SegmentMatches(RestCompiledTails[j][1], "@patch");
      }
    }
    assert TailMatches(5, tail);
    assert Captures(RestCompiledTails[5], tail) == [("id", id)] by {
      assert RestCompiledTails[5] == [IdGroup] + ["@patch"] && tail == [id] + ["@patch"];
      OneCapture(IdGroup, ["@patch"], id, ["@patch"]);
    }
    assert RestActions[5] == "update";
    RestResolve(base, params, ImplodeTokens(base + [id]), "patch", decode, 5, tail);
  }

  /** DELETE on `<base>/<id>` reaches `destroy` with `id` captured. */
  lemma RestDestroy(base: seq<string>, params: Params, id: string, decode: string -> string)
    requires LiteralTokens(base) && id != "" && '/' !in id
    ensures ResolveIn(RestTable(base, params), ImplodeTokens(base + [id]), "delete", decode)
         == Some(MergeMatches(PrefixKeys(RestParams(params, "destroy")), [("id", id)], RequestKey(ImplodeTokens(base + [id]), "delete"), decode))
  {
    var tail := [id, "@delete"];
    assert "@" + "delete" == "@delete";
    assert base + [id] + ["@" + "delete"] == base + tail;
    RequestSegments(base + [id], "delete");
    VerbFacts();
    forall j | 0 <= j < 6 ensures !TailMatches(j, tail) {
      if j != 4 {
        assert !SegmentMatches(RestCompiledTails[j][1], "@delete");
      }
    }
    assert TailMatches(6, tail);
    assert Captures(RestCompiledTails[6], tail) == [("id", id)] by {
      assert RestCompiledTails[6] == [IdGroup] + ["@delete"] && tail == [id] + ["@delete"];
      OneCapture(IdGroup, ["@delete"], id, ["@delete"]);
    }
    assert RestActions[6] == "destroy";
    RestResolve(base, params, ImplodeTokens(base + [id]), "delete", decode, 6, tail);
  }

  // ---------------------------------------------------------------------------
  // Verb pinning in general

  /** A template without a verb is routed by GET. */
  lemma VerbKeyDefault(url: string)
    requires '@' !in url
    ensures VerbKey(url) == url + "/@get"
  {
    assert url + "@get" == url + ['@'] + "get";
    ReplaceOnce(url, '@', "get", "/@");
  }

  /** Every pinned key names a verb, as its own `/@` segment. */
  lemma VerbKeyPinsVerb(url: string)
    ensures '@' in VerbKey(url)
    ensures forall i :: 0 <= i < |VerbKey(url)| && VerbKey(url)[i] == '@' ==> i > 0 && VerbKey(url)[i - 1] == '/'
  {
    var u := if '@' in url then url else url + "@get";
    assert '@' in u by {
      if '@' !in url {
        assert u[|url|] == '@';
      }
    }
    assert "/@" == ['/', '@'];
    ReplaceKeeps(u, '@', "/@");
    ReplacePrefixes(u, '@', '/');
  }

  /** `/a` and `/a@get` pin to the same key: `array_combine` keeps the first
      position and the later metadata. */
  lemma VerbCollision(a: string, first: Params, second: Params)
    requires '@' !in a
    ensures CompileVerbs([(a, first), (a + "@get", second)]) == [(a + "/@get", second)]
  {
    VerbKeyDefault(a);
    var u := a + "@get";
    assert '@' in u by { assert u[|a|] == '@'; }
    assert u == a + ['@'] + "get";
    ReplaceOnce(a, '@', "get", "/@");
    var k := a + "/@get";
    var defs := [(a, first), (u, second)];
    assert VerbKeys(defs) == [k, k];
    assert ValuesOf(defs) == [first, second];
    var one := [(k, first)];
    assert Combine([k], [first]) == one;
    assert one[0].0 == k;
    assert HasKey(one, k);
    assert IndexOfKey(one, k) == 0;
    assert Put(one, k, second) == [(k, second)];
    assert [k, k][..1] == [k] && [first, second][..1] == [first];
  }
}
