/**
 * The template engine: `%param%` placeholders in an HTML template are
 * replaced by the content given for `param`, through the modifiers a
 * placeholder names (`%param|upper|trim%`), and templates fetched once are
 * kept in a cache. Each `RegExp` of `passThruModifiers` is modelled as the
 * matcher it denotes for a parameter name without metacharacters.
 */
module Templates {
  import opened Wrappers

  // ---------------------------------------------------------------------
  // Matching

  /** The characters JavaScript's `.` does not match. */
  predicate LineTerminator(c: char) {
    c == '\n' || c == '\r' || c == '\U{2028}' || c == '\U{2029}'
  }

  /** `%param%`. */
  function Token(param: string): string {
    "%" + param + "%"
  }

  /** `%param|`, the opening of a placeholder with modifiers. */
  function ModifierOpening(param: string): string {
    "%" + param + "|"
  }

  /** The two patterns `passThruModifiers` replaces: `%param%`, and `%param|…%`. */
  datatype Pattern = Plain(param: string) | Modified(param: string)

  /**
   * Where the lazy `(.+?)%` that starts at `k` (one character already
   * taken) ends: the first `%` from `k` on, if no line terminator comes first.
   */
  function GroupEnd(s: string, k: nat): (r: Option<nat>)
    ensures r.Some? ==> k <= r.value < |s| && s[r.value] == '%'
    ensures r.Some? ==> forall j :: k <= j < r.value ==> s[j] != '%' && !LineTerminator(s[j])
    decreases |s| - k
  {
    if k >= |s| || LineTerminator(s[k]) then None
    else if s[k] == '%' then Some(k)
    else GroupEnd(s, k + 1)
  }

  /** The length of the match of `pat` at the start of `s`, if it matches there. */
  function MatchLength(pat: Pattern, s: string): (r: Option<nat>)
    ensures r.Some? ==> 0 < r.value <= |s|
    ensures pat.Plain? ==> (r.Some? <==> |Token(pat.param)| <= |s| && s[..|Token(pat.param)|] == Token(pat.param))
    ensures pat.Plain? && r.Some? ==> r.value == |Token(pat.param)|
    ensures pat.Modified? && r.Some? ==>
      |pat.param| + 2 < r.value - 1 < |s| && s[..|pat.param| + 2] == ModifierOpening(pat.param) && s[r.value - 1] == '%'
  {
    match pat
    case Plain(p) =>
      var tok := Token(p);
      if |tok| <= |s| && s[..|tok|] == tok then Some(|tok|) else None
    case Modified(p) =>
      var k := |p| + 2;
      if k < |s| && s[..k] == ModifierOpening(p) && !LineTerminator(s[k]) then
        match GroupEnd(s, k + 1)
        case Some(j) => Some(j + 1)
        case None => None
      else None
  }

  /** `pat` matches nowhere in `s`. */
  predicate NoMatch(pat: Pattern, s: string) {
    forall i :: 0 <= i < |s| ==> MatchLength(pat, s[i..]).None?
  }

  /** The leftmost match of `pat` at or after `from`: its start and its length. */
  function FirstMatch(pat: Pattern, s: string, from: nat): (r: Option<(nat, nat)>)
    ensures r.None? <==> forall i :: from <= i < |s| ==> MatchLength(pat, s[i..]).None?
    ensures r.Some? ==> from <= r.value.0 < |s| && MatchLength(pat, s[r.value.0..]) == Some(r.value.1)
    ensures r.Some? ==> forall i :: from <= i < r.value.0 ==> MatchLength(pat, s[i..]).None?
    decreases |s| - from
  {
    if from >= |s| then None
    else
      var here := MatchLength(pat, s[from..]);
      if here.Some? then Some((from, here.value))
      else
        // no match at `from`, stated in the form of the contract's quantifiers
        assert forall i :: from <= i < from + 1 ==> MatchLength(pat, s[i..]).None?;
        FirstMatch(pat, s, from + 1)
  }

  // ---------------------------------------------------------------------
  // Replacement

  /**
   * A replacement string as `String.prototype.replace` reads it, for a
   * pattern without captures: `$$` is one `$`, `$&` the match, `` $` `` the
   * text before it, `$'` the text after it; any other `$` is itself.
   */
  function Expand(repl: string, matched: string, before: string, after: string): string
    decreases |repl|
  {
    if repl == [] then []
    else if repl[0] == '$' && |repl| >= 2 && repl[1] == '$' then "$" + Expand(repl[2..], matched, before, after)
    else if repl[0] == '$' && |repl| >= 2 && repl[1] == '&' then matched + Expand(repl[2..], matched, before, after)
    else if repl[0] == '$' && |repl| >= 2 && repl[1] == '`' then before + Expand(repl[2..], matched, before, after)
    else if repl[0] == '$' && |repl| >= 2 && repl[1] == '\'' then after + Expand(repl[2..], matched, before, after)
    else [repl[0]] + Expand(repl[1..], matched, before, after)
  }

  /** `content.replace(/\$/g, '$$$$')`: every `$` doubled. */
  function DoubleDollars(content: string): (r: string)
    ensures |r| >= |content|
  {
    if content == [] then []
    else if content[0] == '$' then "$$" + DoubleDollars(content[1..])
    else [content[0]] + DoubleDollars(content[1..])
  }

  /** A doubled content expands back to itself, whatever the match and its surroundings. */
  lemma {:induction false} ExpandDoubled(content: string, matched: string, before: string, after: string)
    ensures Expand(DoubleDollars(content), matched, before, after) == content
    decreases |content|
  {
    if content != [] {
      ExpandDoubled(content[1..], matched, before, after);
      var d := DoubleDollars(content[1..]);
      if content[0] == '$' {
        assert ("$$" + d)[2..] == d;
      } else {
        assert ([content[0]] + d)[1..] == d;
      }
    }
  }

  /**
   * A global `replace` of `pat` in `done + rest` from the start of `rest`:
   * every leftmost, non-overlapping match is replaced by the expansion of `repl`.
   */
  function Replace(pat: Pattern, done: string, rest: string, repl: string): string
    decreases |rest|
  {
    if rest == [] then []
    else match MatchLength(pat, rest)
      case Some(n) =>
        Expand(repl, rest[..n], done, rest[n..]) + Replace(pat, done + rest[..n], rest[n..], repl)
      case None =>
        [rest[0]] + Replace(pat, done + [rest[0]], rest[1..], repl)
  }

  function ReplaceAll(pat: Pattern, s: string, repl: string): string {
    Replace(pat, [], s, repl)
  }

  /** Where `pat` matches nowhere, replacing it changes nothing. */
  lemma {:induction false} ReplaceNoMatch(pat: Pattern, done: string, rest: string, repl: string)
    requires NoMatch(pat, rest)
    ensures Replace(pat, done, rest, repl) == rest
    decreases |rest|
  {
    if rest != [] {
      assert rest[0..] == rest;
      assert MatchLength(pat, rest[0..]).None?;
      forall i | 0 <= i < |rest[1..]|
        ensures MatchLength(pat, rest[1..][i..]).None?
      {
        assert rest[1..][i..] == rest[i + 1..];
        assert MatchLength(pat, rest[i + 1..]).None?;
      }
      ReplaceNoMatch(pat, done + [rest[0]], rest[1..], repl);
    }
  }

  // ---------------------------------------------------------------------
  // The reference definition: split at the token, join with the content

  /** The pieces of `s` between its leftmost non-overlapping occurrences of `tok`. */
  function Split(s: string, tok: string): (r: seq<string>)
    requires |tok| > 0
    ensures |r| >= 1
    decreases |s|
  {
    if |s| < |tok| then [s]
    else if s[..|tok|] == tok then [[]] + Split(s[|tok|..], tok)
    else
      var t := Split(s[1..], tok);
      [[s[0]] + t[0]] + t[1..]
  }

  function Join(parts: seq<string>, sep: string): string
    requires |parts| >= 1
    decreases |parts|
  {
    if |parts| == 1 then parts[0] else parts[0] + sep + Join(parts[1..], sep)
  }

  lemma JoinConsHead(c: char, t: seq<string>, sep: string)
    requires |t| >= 1
    ensures Join([[c] + t[0]] + t[1..], sep) == [c] + Join(t, sep)
  {
    var u := [[c] + t[0]] + t[1..];
    assert u[1..] == t[1..];
  }

  /** Away from a match, a split grows its first piece by one character. */
  lemma SplitStep(s: string, tok: string, sep: string)
    requires |tok| > 0 && s != []
    requires !(|tok| <= |s| && s[..|tok|] == tok)
    ensures Join(Split(s, tok), sep) == [s[0]] + Join(Split(s[1..], tok), sep)
  {
    if |s| < |tok| {
      assert Split(s[1..], tok) == [s[1..]];
      assert [s[0]] + s[1..] == s;
    } else {
      JoinConsHead(s[0], Split(s[1..], tok), sep);
    }
  }

  /** At a match, a split starts with an empty piece. */
  lemma SplitAtToken(s: string, tok: string, sep: string)
    requires |tok| > 0 && |tok| <= |s| && s[..|tok|] == tok
    ensures Join(Split(s, tok), sep) == sep + Join(Split(s[|tok|..], tok), sep)
  {
    var t := Split(s[|tok|..], tok);
    assert Split(s, tok) == [[]] + t;
    assert ([[]] + t)[1..] == t;
  }

  /** Joining the pieces with the token gives the text back. */
  lemma {:induction false} JoinSplit(s: string, tok: string)
    requires |tok| > 0
    ensures Join(Split(s, tok), tok) == s
    decreases |s|
  {
    if |s| < |tok| {
    } else if s[..|tok|] == tok {
      JoinSplit(s[|tok|..], tok);
      SplitAtToken(s, tok, tok);
      assert s[..|tok|] + s[|tok|..] == s;
    } else {
      JoinSplit(s[1..], tok);
      SplitStep(s, tok, tok);
      assert [s[0]] + s[1..] == s;
    }
  }

  /**
   * Replacing `%param%` by a doubled content puts the content itself in
   * place of every occurrence, and changes nothing else.
   */
  lemma {:induction false} ReplaceIsSplitJoin(param: string, done: string, rest: string, content: string)
    ensures Replace(Plain(param), done, rest, DoubleDollars(content)) == Join(Split(rest, Token(param)), content)
    decreases |rest|
  {
    var tok := Token(param);
    if rest == [] {
    } else if |tok| <= |rest| && rest[..|tok|] == tok {
      ExpandDoubled(content, rest[..|tok|], done, rest[|tok|..]);
      ReplaceIsSplitJoin(param, done + rest[..|tok|], rest[|tok|..], content);
      SplitAtToken(rest, tok, content);
    } else {
      ReplaceIsSplitJoin(param, done + [rest[0]], rest[1..], content);
      SplitStep(rest, tok, content);
    }
  }

  // ---------------------------------------------------------------------
  // passThruModifiers and getCompleted

  /** The functions `ModifierManager` provides, by name. */
  type Modifiers = map<string, string -> string>

  /** Each named modifier in turn on the content; an unknown name leaves it as it is. */
  function ApplyModifiers(modifiers: Modifiers, names: seq<string>, content: string): string
    decreases |names|
  {
    if names == [] then content
    else
      var next := if names[0] in modifiers then modifiers[names[0]](content) else content;
      ApplyModifiers(modifiers, names[1..], next)
  }

  /**
   * `passThruModifiers`: the content's `$` are doubled; if the template
   * has a `%param|…%` placeholder, the modifiers named by the first one
   * transform the content, and every such placeholder is replaced by it;
   * then every `%param%` is.
   */
  function PassThruModifiers(modifiers: Modifiers, html: string, param: string, content: string): string {
    var doubled := DoubleDollars(content);
    match FirstMatch(Modified(param), html, 0)
    case Some((i, n)) =>
      var names := Split(html[i + |param| + 2 .. i + n - 1], "|");
      var modified := ApplyModifiers(modifiers, names, doubled);
      ReplaceAll(Plain(param), ReplaceAll(Modified(param), html, modified), modified)
    case None =>
      ReplaceAll(Plain(param), html, doubled)
  }

  /** Without a modifier placeholder, every `%param%` becomes the content, verbatim. */
  lemma PlainPlaceholders(modifiers: Modifiers, html: string, param: string, content: string)
    requires NoMatch(Modified(param), html)
    ensures PassThruModifiers(modifiers, html, param, content) == Join(Split(html, Token(param)), content)
  {
    ReplaceIsSplitJoin(param, [], html, content);
  }

  /** A template without any placeholder for `param` is left as it is. */
  lemma NoPlaceholder(modifiers: Modifiers, html: string, param: string, content: string)
    requires NoMatch(Modified(param), html) && NoMatch(Plain(param), html)
    ensures PassThruModifiers(modifiers, html, param, content) == html
  {
    ReplaceNoMatch(Plain(param), [], html, DoubleDollars(content));
  }

  /** The template after each parameter in turn, each on the result of the one before. */
  function Completed(modifiers: Modifiers, html: string, params: seq<(string, string)>): string
    decreases |params|
  {
    if params == [] then html
    else Completed(modifiers, PassThruModifiers(modifiers, html, params[0].0, params[0].1), params[1..])
  }

  /** A parameter whose placeholder the template lacks can be dropped. */
  lemma AbsentParameter(modifiers: Modifiers, html: string, param: string, content: string, params: seq<(string, string)>)
    requires NoMatch(Modified(param), html) && NoMatch(Plain(param), html)
    ensures Completed(modifiers, html, [(param, content)] + params) == Completed(modifiers, html, params)
  {
    NoPlaceholder(modifiers, html, param, content);
    assert ([(param, content)] + params)[1..] == params;
  }

  // ---------------------------------------------------------------------
  // The cache

  /** A request of `loadToCache`, or a call it makes. */
  datatype TemplateCall =
    | Fetch(batch: nat, fileName: string, url: string)
    | OnSuccess(batch: nat)
    | LogError(message: string)

  /** One `loadToCache` call: its names, its counter, and whether it has an `onSuccess`. */
  datatype Batch = Batch(names: seq<string>, counter: nat, hasOnSuccess: bool)

  function TemplatePath(dir: string, extension: string, fileName: string): string {
    dir + "/" + fileName + extension
  }

  /**
   * The calls and the counter of batch `b` once its first `k` names have been
   * looked at: a cached name is counted, and the count reaching the number
   * of names fires `onSuccess`; a name not cached is fetched.
   */
  function LoadPrefix(cache: map<string, string>, names: seq<string>, k: nat, hasOnSuccess: bool, b: nat,
                      dir: string, extension: string): (r: (seq<TemplateCall>, nat))
    requires k <= |names|
    ensures r.1 <= k
  {
    if k == 0 then ([], 0)
    else
      var (calls, counter) := LoadPrefix(cache, names, k - 1, hasOnSuccess, b, dir, extension);
      var name := names[k - 1];
      if name in cache then
        (calls + (if counter + 1 >= |names| && hasOnSuccess then [OnSuccess(b)] else []), counter + 1)
      else
        (calls + [Fetch(b, name, TemplatePath(dir, extension, name))], counter)
  }

  /** One more name looked at: the calls so far are kept, and at most one is added. */
  lemma LoadStep(cache: map<string, string>, names: seq<string>, k: nat, hasOnSuccess: bool, b: nat,
                 dir: string, extension: string)
    requires 0 < k <= |names|
    ensures var before := LoadPrefix(cache, names, k - 1, hasOnSuccess, b, dir, extension);
      var after := LoadPrefix(cache, names, k, hasOnSuccess, b, dir, extension);
      var name := names[k - 1];
      && (name in cache ==>
            (after.1 == before.1 + 1
             && after.0 == before.0 + (if before.1 + 1 >= |names| && hasOnSuccess then [OnSuccess(b)] else [])))
      && (name !in cache ==> after.1 == before.1 && after.0 == before.0 + [Fetch(b, name, TemplatePath(dir, extension, name))])
  {
  }

  /**
   * The counter counts the cached names looked at, so it equals their number
   * exactly when all of them are cached; and `onSuccess` fires during the walk
   * only when every name of the batch was already cached.
   */
  lemma {:induction false} FiresOnlyWhenAllCached(cache: map<string, string>, names: seq<string>, k: nat,
                                                  hasOnSuccess: bool, b: nat, dir: string, extension: string)
    requires k <= |names|
    ensures var r := LoadPrefix(cache, names, k, hasOnSuccess, b, dir, extension);
      && (r.1 == k <==> forall i :: 0 <= i < k ==> names[i] in cache)
      && (OnSuccess(b) in r.0 ==> k == |names| && forall i :: 0 <= i < |names| ==> names[i] in cache)
  {
    if k > 0 {
      FiresOnlyWhenAllCached(cache, names, k - 1, hasOnSuccess, b, dir, extension);
      LoadStep(cache, names, k, hasOnSuccess, b, dir, extension);
    }
  }

  /** A name already cached is never fetched again. */
  lemma {:induction false} NoRefetch(cache: map<string, string>, names: seq<string>, k: nat, hasOnSuccess: bool, b: nat,
                                     dir: string, extension: string)
    requires k <= |names|
    ensures var calls := LoadPrefix(cache, names, k, hasOnSuccess, b, dir, extension).0;
      forall i :: 0 <= i < |calls| && calls[i].Fetch? ==> calls[i].fileName !in cache && calls[i].batch == b
  {
    if k > 0 {
      NoRefetch(cache, names, k - 1, hasOnSuccess, b, dir, extension);
      LoadStep(cache, names, k, hasOnSuccess, b, dir, extension);
    }
  }

  /** Every name not cached is fetched. */
  lemma {:induction false} UncachedFetched(cache: map<string, string>, names: seq<string>, k: nat, hasOnSuccess: bool, b: nat,
                                           dir: string, extension: string)
    requires k <= |names|
    ensures var calls := LoadPrefix(cache, names, k, hasOnSuccess, b, dir, extension).0;
      forall i :: 0 <= i < k && names[i] !in cache ==> Fetch(b, names[i], TemplatePath(dir, extension, names[i])) in calls
  {
    if k > 0 {
      UncachedFetched(cache, names, k - 1, hasOnSuccess, b, dir, extension);
      LoadStep(cache, names, k, hasOnSuccess, b, dir, extension);
    }
  }

  /** While all the names looked at are cached, the counter is their number and nothing fires before the last. */
  lemma {:induction false} CachedPrefix(cache: map<string, string>, names: seq<string>, k: nat, hasOnSuccess: bool, b: nat,
                                        dir: string, extension: string)
    requires k < |names|
    requires forall i :: 0 <= i < |names| ==> names[i] in cache
    ensures LoadPrefix(cache, names, k, hasOnSuccess, b, dir, extension) == ([], k)
  {
    if k > 0 {
      CachedPrefix(cache, names, k - 1, hasOnSuccess, b, dir, extension);
      LoadStep(cache, names, k, hasOnSuccess, b, dir, extension);
    }
  }

  /** An empty batch makes no call at all: nothing is fetched, and `onSuccess` never fires. */
  lemma EmptyBatchNeverFires(cache: map<string, string>, hasOnSuccess: bool, b: nat, dir: string, extension: string)
    ensures LoadPrefix(cache, [], 0, hasOnSuccess, b, dir, extension) == ([], 0)
  {
  }

  /** When every name is already cached, `onSuccess` fires exactly once, as the last name is counted. */
  lemma AllCachedFiresOnce(cache: map<string, string>, names: seq<string>, b: nat, dir: string, extension: string)
    requires |names| > 0
    requires forall i :: 0 <= i < |names| ==> names[i] in cache
    ensures LoadPrefix(cache, names, |names|, true, b, dir, extension) == ([OnSuccess(b)], |names|)
  {
    CachedPrefix(cache, names, |names| - 1, true, b, dir, extension);
    assert names[|names| - 1] in cache;
    LoadStep(cache, names, |names|, true, b, dir, extension);
    var r := LoadPrefix(cache, names, |names|, true, b, dir, extension);
    assert r.0 == [] + [OnSuccess(b)] == [OnSuccess(b)];
    assert r.1 == |names|;
  }

  class TemplateManager {
    var cache: map<string, string>
    const modifiers: Modifiers
    /** `app.config`'s template directory and file extension. */
    const templateDir: string
    const templateExtension: string
    /** Every `loadToCache` call that had an array, by number. */
    var batches: seq<Batch>
    /** Every request and call made so far, in order. */
    var calls: seq<TemplateCall>

    /** `init`: the modifiers are those of a new `ModifierManager`. */
    constructor(modifiers: Modifiers, templateDir: string, templateExtension: string)
      ensures cache == map[] && batches == [] && calls == []
      ensures this.modifiers == modifiers && this.templateDir == templateDir
      ensures this.templateExtension == templateExtension
    {
      cache := map[];
      this.modifiers := modifiers;
      this.templateDir := templateDir;
      this.templateExtension := templateExtension;
      batches := [];
      calls := [];
    }

    /** `get`: the cached template completed with the parameters, or `''` if it is not cached. */
    method Get(tplName: string, tplParams: seq<(string, string)>) returns (html: string)
      ensures tplName !in cache ==> html == ""
      ensures tplName in cache ==> html == Completed(modifiers, cache[tplName], tplParams)
    {
      if tplName in cache {
        html := GetCompleted(cache[tplName], tplParams);
      } else {
        html := "";
      }
    }

    /** `getCompleted`: one parameter at a time, each on the result of the one before. */
    method GetCompleted(tplHtml: string, tplParams: seq<(string, string)>) returns (html: string)
      ensures html == Completed(modifiers, tplHtml, tplParams)
      ensures tplParams == [] ==> html == tplHtml
    {
      html := tplHtml;
      var k := 0;
      while k < |tplParams|
        invariant 0 <= k <= |tplParams|
        invariant Completed(modifiers, html, tplParams[k..]) == Completed(modifiers, tplHtml, tplParams)
      {
        assert tplParams[k..][1..] == tplParams[k + 1..];
        html := PassThruModifiers(modifiers, html, tplParams[k].0, tplParams[k].1);
        k := k + 1;
      }
    }

    /**
     * `loadToCache`: nothing for a non-array. For an array, a new batch: each
     * name not cached is fetched; each cached one is counted at once, firing
     * `onSuccess` when the count reaches the number of names.
     */
    method LoadToCache(tplNames: Option<seq<string>>, hasOnSuccess: bool)
      modifies this
      ensures cache == old(cache)
      ensures tplNames.None? ==> batches == old(batches) && calls == old(calls)
      ensures tplNames.Some? ==>
        var r := LoadPrefix(old(cache), tplNames.value, |tplNames.value|, hasOnSuccess, |old(batches)|, templateDir, templateExtension);
        && calls == old(calls) + r.0
        && batches == old(batches) + [Batch(tplNames.value, r.1, hasOnSuccess)]
    {
      if tplNames.Some? {
        var names := tplNames.value;
        var b := |batches|;
        var cachedTemplates: nat := 0;
        var k := 0;
        ghost var start := calls;
        while k < |names|
          invariant 0 <= k <= |names|
          invariant cache == old(cache) && batches == old(batches)
          invariant |start| <= |calls| && calls[..|start|] == start
          invariant calls[|start|..] == LoadPrefix(cache, names, k, hasOnSuccess, b, templateDir, templateExtension).0
          invariant cachedTemplates == LoadPrefix(cache, names, k, hasOnSuccess, b, templateDir, templateExtension).1
        {
          var fileName := names[k];
          LoadStep(cache, names, k + 1, hasOnSuccess, b, templateDir, templateExtension);
          if fileName !in cache {
            calls := calls + [Fetch(b, fileName, TemplatePath(templateDir, templateExtension, fileName))];
          } else {
            cachedTemplates := cachedTemplates + 1;
            if cachedTemplates >= |names| && hasOnSuccess {
              calls := calls + [OnSuccess(b)];
            }
          }
          k := k + 1;
        }
        assert calls == start + calls[|start|..];
        batches := batches + [Batch(names, cachedTemplates, hasOnSuccess)];
      }
    }

    /**
     * A fetch of batch `b` succeeded: its counter grows, the template is
     * cached, and `onSuccess` fires if the count has reached the number of names.
     */
    method OnFetchSuccess(b: nat, fileName: string, data: string)
      requires b < |batches|
      modifies this
      ensures cache == old(cache)[fileName := data]
      ensures old(cache).Keys <= cache.Keys
      ensures var old_b := old(batches)[b];
        && batches == old(batches)[b := old_b.(counter := old_b.counter + 1)]
        && calls == old(calls) + (if old_b.counter + 1 >= |old_b.names| && old_b.hasOnSuccess then [OnSuccess(b)] else [])
    {
      var batch := batches[b].(counter := batches[b].counter + 1);
      batches := batches[b := batch];
      cache := cache[fileName := data];
      if batch.counter >= |batch.names| && batch.hasOnSuccess {
        calls := calls + [OnSuccess(b)];
      }
    }

    /** A fetch failed: the error is logged, and nothing else changes. */
    method OnFetchError(errorThrown: string)
      modifies this
      ensures calls == old(calls) + [LogError("templateManagerError: " + errorThrown)]
      ensures cache == old(cache) && batches == old(batches)
    {
      calls := calls + [LogError("templateManagerError: " + errorThrown)];
    }
  }
}
