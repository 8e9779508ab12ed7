/**
  The nested-dictionary translator of `src/contexts/LanguageContext.tsx`.

  A key such as `home.hero.title` is split on '.', and the segments are read
  one after another from the active language's dictionary, as JavaScript
  property reads. Reading a property of `undefined` or `null` throws; the
  thrown error is what triggers the English fallback. A walk that completes on
  something other than a string returns the key itself, with no fallback.
  Placeholders `{name}` are then replaced by the supplied parameters, one
  parameter after another.
 */
module NestedTranslation {
  import opened Wrappers
  import opened Text
  import opened Languages

  /** A JSON value read from a translation file, plus `undefined`. */
  datatype JVal =
    | Undefined
    | Null
    | JStr(s: string)
    | JArr(items: seq<JVal>)
    | JObj(fields: map<string, JVal>)
    | JOther // a number or a boolean

  /** A property name that JavaScript reads as an array or string index: "0", "1", ..., without leading zeros. */
  predicate IsIndexName(k: string) {
    |k| >= 1 && AllDigits(k) && (|k| == 1 || k[0] != '0')
  }

  /**
    `v[k]` for a value that is neither `undefined` nor `null`: an object field,
    an array element, or a one-character string; anything else is `undefined`.
   */
  function Get(v: JVal, k: string): (r: JVal)
    requires !v.Undefined? && !v.Null?
    ensures v.JObj? && k in v.fields ==> r == v.fields[k]
    ensures v.JObj? && k !in v.fields ==> r == Undefined
    ensures v.JOther? ==> r == Undefined
    ensures v.JArr? ==> r == if IsIndexName(k) && DigitsValue(k) < |v.items| then v.items[DigitsValue(k)] else Undefined
    ensures v.JStr? && IsIndexName(k) && DigitsValue(k) < |v.s| ==> r.JStr? && |r.s| == 1 && r.s[0] == v.s[DigitsValue(k)]
    ensures v.JStr? && !(IsIndexName(k) && DigitsValue(k) < |v.s|) ==> r == Undefined
  {
    match v
    case JObj(fields) => if k in fields then fields[k] else Undefined
    case JArr(items) =>
      if IsIndexName(k) && DigitsValue(k) < |items| then items[DigitsValue(k)] else Undefined
    case JStr(s) =>
      if IsIndexName(k) && DigitsValue(k) < |s| then JStr([s[DigitsValue(k)]]) else Undefined
    case JOther => Undefined
  }

  /** Outcome of walking a key path: the value reached, or a thrown error. */
  datatype Walked = Threw | Done(value: JVal)

  /** `for (const k of keys) result = result[k]`, where reading through `undefined` or `null` throws. */
  function Walk(v: JVal, keys: seq<string>): Walked
    decreases |keys|
  {
    if |keys| == 0 then Done(v)
    else if v.Undefined? || v.Null? then Threw
    else Walk(Get(v, keys[0]), keys[1..])
  }

  /** Walking a concatenated path is walking the first part, then the second from where it ended. */
  lemma {:induction false} WalkAppend(v: JVal, a: seq<string>, b: seq<string>)
    ensures Walk(v, a + b) == match Walk(v, a) case Threw => Threw case Done(w) => Walk(w, b)
    decreases |a|
  {
    if |a| > 0 {
      assert (a + b)[0] == a[0];
      assert (a + b)[1..] == a[1..] + b;
      if !v.Undefined? && !v.Null? {
        WalkAppend(Get(v, a[0]), a[1..], b);
      }
    } else {
      assert a + b == b;
    }
  }

  /**
    A walk throws exactly when a prefix of the path shorter than the whole path
    ends on `undefined` or `null`: some segment other than the last is missing.
   */
  lemma {:induction false} WalkThrowsIff(v: JVal, keys: seq<string>)
    ensures Walk(v, keys) == Threw <==>
      exists i :: 0 <= i < |keys| && Walk(v, keys[..i]).Done? && Walk(v, keys[..i]).value in {Undefined, Null}
    decreases |keys|
  {
    if |keys| > 0 {
      assert keys[..0] == [];
      if !v.Undefined? && !v.Null? {
        var w := Get(v, keys[0]);
        WalkThrowsIff(w, keys[1..]);
        forall i | 1 <= i <= |keys|
          ensures Walk(v, keys[..i]) == Walk(w, keys[1..][..i - 1])
        {
          assert keys[..i][0] == keys[0];
          assert keys[..i][1..] == keys[1..][..i - 1];
        }
        if Walk(v, keys) == Threw {
          var j :| 0 <= j < |keys[1..]| && Walk(w, keys[1..][..j]).Done? && Walk(w, keys[1..][..j]).value in {Undefined, Null};
          assert Walk(v, keys[..j + 1]) == Walk(w, keys[1..][..j]);
        }
        if exists i :: 0 <= i < |keys| && Walk(v, keys[..i]).Done? && Walk(v, keys[..i]).value in {Undefined, Null} {
          var i :| 0 <= i < |keys| && Walk(v, keys[..i]).Done? && Walk(v, keys[..i]).value in {Undefined, Null};
          assert i >= 1;
          assert Walk(w, keys[1..][..i - 1]) == Walk(v, keys[..i]);
        }
      }
    }
  }

  // ---------------------------------------------------------------------------
  // Placeholder substitution
  // ---------------------------------------------------------------------------

  /** A parameter value: a string, or an integer printed in decimal. */
  datatype ParamValue = PStr(s: string) | PInt(n: int)

  /** `String(value)` */
  function ValueString(v: ParamValue): string {
    match v
    case PStr(s) => s
    case PInt(n) => IntToString(n)
  }

  /** The placeholder `{name}` for a parameter name. */
  function Placeholder(name: string): (r: string)
    ensures |r| == |name| + 2 && r[0] == '{' && r[|r| - 1] == '}'
  {
    "{" + name + "}"
  }

  /**
    The parameters in `Object.keys` order, each replacing every occurrence of
    its placeholder in the text produced by the ones before it. An absent
    `params` is the empty list.
   */
  function Substitute(s: string, params: seq<(string, ParamValue)>): string
    decreases |params|
  {
    if |params| == 0 then s
    else Substitute(ReplaceAll(s, Placeholder(params[0].0), ValueString(params[0].1)), params[1..])
  }

  /** A text in which no parameter's placeholder occurs comes back unchanged. */
  lemma {:induction false} SubstituteAbsent(s: string, params: seq<(string, ParamValue)>)
    requires forall i :: 0 <= i < |params| ==> !Contains(s, Placeholder(params[i].0))
    ensures Substitute(s, params) == s
    decreases |params|
  {
    if |params| > 0 {
      ReplaceAllAbsent(s, Placeholder(params[0].0), ValueString(params[0].1));
      SubstituteAbsent(s, params[1..]);
    }
  }

  /**
    With one parameter, text before its first placeholder is kept, the
    placeholder becomes the value, and the rest is substituted the same way.
   */
  lemma SubstituteOne(x: string, name: string, y: string, value: ParamValue)
    requires '{' !in x
    ensures Substitute(x + Placeholder(name) + y, [(name, value)])
      == x + ValueString(value) + ReplaceAll(y, Placeholder(name), ValueString(value))
  {
    ReplaceAllAt(x, Placeholder(name), y, ValueString(value));
  }

  /** A name that holds neither brace, as every parameter name in the translation calls does. */
  predicate BraceFree(name: string) {
    '{' !in name && '}' !in name
  }

  /** In the placeholder of a brace-free name, `{` only opens it and `}` only closes it. */
  lemma PlaceholderBraces(name: string)
    requires BraceFree(name)
    ensures forall k :: 0 < k < |Placeholder(name)| ==> Placeholder(name)[k] != '{'
    ensures forall k :: 0 <= k < |Placeholder(name)| - 1 ==> Placeholder(name)[k] != '}'
    ensures Placeholder(name)[1..|Placeholder(name)| - 1] == name
  {
    var p := Placeholder(name);
    forall k | 0 < k < |p| - 1
      ensures p[k] == name[k - 1]
    {
    }
  }

  /** Occurrences of the placeholders of two brace-free names overlap only when the names are the same. */
  lemma PlaceholdersDisjoint(s: string, n: string, m: string, j: int, i: int)
    requires BraceFree(n) && BraceFree(m)
    requires OccursAt(s, Placeholder(n), j) && OccursAt(s, Placeholder(m), i)
    ensures j + |Placeholder(n)| <= i || i + |Placeholder(m)| <= j || n == m
  {
    var pn, pm := Placeholder(n), Placeholder(m);
    PlaceholderBraces(n);
    PlaceholderBraces(m);
    OccursChars(s, pn, j);
    OccursChars(s, pm, i);
    assert s[i] == '{' && s[j] == '{';
    assert s[j + |pn| - 1] == '}' && s[i + |pm| - 1] == '}';
    assert i == j && |pn| == |pm| ==> pn == pm;
  }

  /**
    Replacing every `{n}` keeps an occurrence of `{m}` for a different brace-free
    name, whatever the replacement text.
   */
  lemma {:induction false} ReplaceKeepsPlaceholder(s: string, n: string, rep: string, m: string, i: int)
    requires BraceFree(n) && BraceFree(m) && n != m
    requires OccursAt(s, Placeholder(m), i)
    ensures Contains(ReplaceAll(s, Placeholder(n), rep), Placeholder(m))
    decreases |s|
  {
    var pn, pm := Placeholder(n), Placeholder(m);
    if |s| < |pn| {
      assert ReplaceAll(s, pn, rep) == s;
      assert OccursAt(ReplaceAll(s, pn, rep), pm, i);
    } else if s[..|pn|] == pn {
      assert OccursAt(s, pn, 0);
      PlaceholdersDisjoint(s, n, m, 0, i);
      var t := s[|pn|..];
      assert t[i - |pn|..i - |pn| + |pm|] == s[i..i + |pm|];
      ReplaceKeepsPlaceholder(t, n, rep, m, i - |pn|);
      assert ReplaceAll(s, pn, rep) == rep + ReplaceAll(t, pn, rep);
      ContainsAfter(rep, ReplaceAll(t, pn, rep), pm);
    } else if i == 0 {
      PlaceholderBraces(m);
      var rest := s[|pm|..];
      assert s[1..] == pm[1..] + rest;
      assert pn[0] !in pm[1..];
      ReplaceAllSkip(pm[1..], rest, pn, rep);
      var r := ReplaceAll(s, pn, rep);
      assert r == [s[0]] + (pm[1..] + ReplaceAll(rest, pn, rep));
      assert r[..|pm|] == [s[0]] + pm[1..] == pm;
      assert OccursAt(r, pm, 0);
    } else {
      var t := s[1..];
      assert t[i - 1..i - 1 + |pm|] == s[i..i + |pm|];
      ReplaceKeepsPlaceholder(t, n, rep, m, i - 1);
      assert ReplaceAll(s, pn, rep) == [s[0]] + ReplaceAll(t, pn, rep);
      ContainsAfter([s[0]], ReplaceAll(t, pn, rep), pm);
    }
  }

  /**
    A placeholder without a parameter stays as it is: when no parameter is named
    `m`, and no name holds a brace, every `{m}` in the text survives substitution.
   */
  lemma {:induction false} UnmatchedPlaceholderKept(s: string, params: seq<(string, ParamValue)>, m: string)
    requires BraceFree(m) && Contains(s, Placeholder(m))
    requires forall k :: 0 <= k < |params| ==> BraceFree(params[k].0) && params[k].0 != m
    ensures Contains(Substitute(s, params), Placeholder(m))
    decreases |params|
  {
    if |params| > 0 {
      var i :| 0 <= i <= |s| - |Placeholder(m)| && OccursAt(s, Placeholder(m), i);
      ReplaceKeepsPlaceholder(s, params[0].0, ValueString(params[0].1), m, i);
      UnmatchedPlaceholderKept(ReplaceAll(s, Placeholder(params[0].0), ValueString(params[0].1)), params[1..], m);
    }
  }

  lemma NameNotInYear()
    ensures !Contains(" {year}", Placeholder("name"))
  {
    var s, p := " {year}", Placeholder("name");
    assert p == "{name}";
    assert !MatchFrom(s, p, 1, 1);
    assert !ScanFrom(s, p, 1);
    assert !ScanFrom(s, p, 0);
    ContainsIffScan(s, p);
  }

  /** A text with one placeholder of the parameter, and none after it, has just that one replaced. */
  lemma SubstituteOnlyOne(x: string, name: string, y: string, value: ParamValue)
    requires '{' !in x && !Contains(y, Placeholder(name))
    ensures Substitute(x + Placeholder(name) + y, [(name, value)]) == x + ValueString(value) + y
  {
    SubstituteOne(x, name, y, value);
    ReplaceAllAbsent(y, Placeholder(name), ValueString(value));
  }

  /** An instance: substituting `name` in `{name} {year}` leaves `{year}` in place. */
  lemma UnmatchedPlaceholderExample()
    ensures Substitute("{name} {year}", [("name", PStr("Ali"))]) == "Ali {year}"
  {
    NameNotInYear();
    SubstituteOnlyOne("", "name", " {year}", PStr("Ali"));
    assert Placeholder("name") == "{name}" && ValueString(PStr("Ali")) == "Ali";
    assert "" + "{name}" + " {year}" == "{name} {year}";
    assert "" + "Ali" + " {year}" == "Ali {year}";
  }

  /** Whether a `{` is open after reading `c`, starting from `open`. */
  function NextOpen(c: char, open: bool): bool {
    if c == '{' then true else c != '}' && open
  }

  /**
    Reading the text from the left, no `{` comes while an earlier `{` is still
    open: braces are not nested. Every translation text is flat in this sense.
   */
  predicate FlatFrom(s: string, open: bool)
    decreases |s|
  {
    |s| == 0 || ((s[0] == '{' ==> !open) && FlatFrom(s[1..], NextOpen(s[0], open)))
  }

  predicate Flat(s: string) {
    FlatFrom(s, false)
  }

  /** Brace-free text does not change the reading. */
  lemma {:induction false} FlatSkip(x: string, y: string, open: bool)
    requires BraceFree(x)
    ensures FlatFrom(x + y, open) == FlatFrom(y, open)
    decreases |x|
  {
    if |x| > 0 {
      assert (x + y)[1..] == x[1..] + y;
      assert x[0] in x;
      assert forall c :: c in x[1..] ==> c in x;
      assert (x + y)[0] == x[0] && NextOpen(x[0], open) == open;
      assert BraceFree(x[1..]);
      FlatSkip(x[1..], y, open);
      assert FlatFrom(x + y, open) == FlatFrom(x[1..] + y, open);
    } else {
      assert x + y == y;
    }
  }

  /** After a whole placeholder no brace is open. */
  lemma FlatAfterPlaceholder(m: string, y: string, open: bool)
    requires BraceFree(m) && FlatFrom(Placeholder(m) + y, open)
    ensures !open && FlatFrom(y, false)
  {
    var t := Placeholder(m) + y;
    assert t[1..] == m + ("}" + y);
    FlatSkip(m, "}" + y, true);
    assert ("}" + y)[1..] == y;
  }

  /** Replacing a placeholder by brace-free text keeps a flat text flat. */
  lemma {:induction false} ReplaceKeepsFlat(s: string, m: string, rep: string, open: bool)
    requires BraceFree(m) && BraceFree(rep) && FlatFrom(s, open)
    ensures FlatFrom(ReplaceAll(s, Placeholder(m), rep), open)
    decreases |s|
  {
    var pm := Placeholder(m);
    if |s| >= |pm| {
      if s[..|pm|] == pm {
        var y := s[|pm|..];
        assert s == pm + y;
        FlatAfterPlaceholder(m, y, open);
        ReplaceKeepsFlat(y, m, rep, false);
        FlatSkip(rep, ReplaceAll(y, pm, rep), false);
      } else {
        var r' := ReplaceAll(s[1..], pm, rep);
        ReplaceKeepsFlat(s[1..], m, rep, NextOpen(s[0], open));
        assert ([s[0]] + r')[1..] == r';
      }
    }
  }

  /**
    Inside an open brace, replacing placeholders leaves the text up to the
    closing `}` as it was: a brace-free `w` followed by `}` at the front of
    the result was there before.
   */
  lemma {:induction false} OpenPrefixKept(t: string, m: string, rep: string, w: string)
    requires BraceFree(m) && BraceFree(rep) && BraceFree(w) && FlatFrom(t, true)
    ensures var r := ReplaceAll(t, Placeholder(m), rep);
      |r| > |w| && r[..|w| + 1] == w + "}" ==> |t| > |w| && t[..|w| + 1] == w + "}"
    decreases |w|
  {
    var pm := Placeholder(m);
    var r := ReplaceAll(t, pm, rep);
    if |r| > |w| && r[..|w| + 1] == w + "}" && |t| >= |pm| {
      assert t[..|pm|][0] == t[0] != '{';
      var r' := ReplaceAll(t[1..], pm, rep);
      assert r == [t[0]] + r';
      assert r[0] == t[0] == (w + "}")[0];
      if |w| > 0 {
        assert w[0] in w;
        assert forall c :: c in w[1..] ==> c in w;
        assert r'[..|w|] == r[1..|w| + 1] == w[1..] + "}";
        OpenPrefixKept(t[1..], m, rep, w[1..]);
        assert t[..|w| + 1] == [t[0]] + t[1..][..|w|];
      }
    }
  }

  /** A placeholder at the front of the result, where none was replaced, was at the front of the text. */
  lemma PlaceholderAtFront(s: string, m: string, rep: string, n: string, open: bool)
    requires BraceFree(m) && BraceFree(rep) && BraceFree(n) && FlatFrom(s, open)
    requires |s| >= |Placeholder(m)| && s[..|Placeholder(m)|] != Placeholder(m)
    ensures OccursAt(ReplaceAll(s, Placeholder(m), rep), Placeholder(n), 0) ==> OccursAt(s, Placeholder(n), 0)
  {
    var pm, pn := Placeholder(m), Placeholder(n);
    var r := ReplaceAll(s, pm, rep);
    if OccursAt(r, pn, 0) {
      var y := s[1..];
      var r' := ReplaceAll(y, pm, rep);
      assert r == [s[0]] + r';
      assert r[..|pn|][0] == r[0] == s[0] == '{';
      assert r'[..|n| + 1] == r[1..|pn|] == pn[1..] == n + "}";
      OpenPrefixKept(y, m, rep, n);
      assert s[..|pn|] == [s[0]] + y[..|n| + 1] == pn;
    }
  }

  /**
    Replacing `{m}` in a flat text by brace-free text creates no placeholder of
    a brace-free name: a `{n}` in the result was in the text before, and `n`
    is not `m`.
   */
  lemma {:induction false} ReplaceCreatesNoPlaceholder(s: string, m: string, rep: string, n: string, open: bool)
    requires BraceFree(m) && BraceFree(rep) && BraceFree(n) && FlatFrom(s, open)
    ensures Contains(ReplaceAll(s, Placeholder(m), rep), Placeholder(n)) ==> Contains(s, Placeholder(n)) && n != m
    decreases |s|
  {
    var pm, pn := Placeholder(m), Placeholder(n);
    var r := ReplaceAll(s, pm, rep);
    if Contains(r, pn) && |s| >= |pm| {
      if s[..|pm|] == pm {
        var y := s[|pm|..];
        var r' := ReplaceAll(y, pm, rep);
        assert s == pm + y;
        FlatAfterPlaceholder(m, y, open);
        assert r == rep + r';
        ContainsSkipPrefix(rep, r', pn);
        ReplaceCreatesNoPlaceholder(y, m, rep, n, false);
        ContainsAfter(pm, y, pn);
      } else {
        var y := s[1..];
        var r' := ReplaceAll(y, pm, rep);
        assert s == [s[0]] + y;
        assert r == [s[0]] + r';
        ContainsCons(s[0], r', pn);
        if OccursAt(r, pn, 0) {
          PlaceholderAtFront(s, m, rep, n, open);
        } else {
          ReplaceCreatesNoPlaceholder(y, m, rep, n, NextOpen(s[0], open));
          ContainsAfter([s[0]], y, pn);
        }
      }
    }
  }

  /** Substitution with brace-free names and values into a flat text creates no placeholder. */
  lemma {:induction false} SubstituteKeepsAbsent(s: string, params: seq<(string, ParamValue)>, n: string)
    requires Flat(s) && BraceFree(n) && !Contains(s, Placeholder(n))
    requires forall k :: 0 <= k < |params| ==> BraceFree(params[k].0) && BraceFree(ValueString(params[k].1))
    ensures !Contains(Substitute(s, params), Placeholder(n))
    decreases |params|
  {
    if |params| > 0 {
      var m, rep := params[0].0, ValueString(params[0].1);
      ReplaceCreatesNoPlaceholder(s, m, rep, n, false);
      ReplaceKeepsFlat(s, m, rep, false);
      SubstituteKeepsAbsent(ReplaceAll(s, Placeholder(m), rep), params[1..], n);
    }
  }

  /**
    Every supplied parameter's placeholder is replaced: in a flat text, with
    brace-free names and values, no `{name}` of a parameter is left.
   */
  lemma {:induction false} SubstituteReplacesAll(s: string, params: seq<(string, ParamValue)>)
    requires Flat(s)
    requires forall k :: 0 <= k < |params| ==> BraceFree(params[k].0) && BraceFree(ValueString(params[k].1))
    ensures forall k :: 0 <= k < |params| ==> !Contains(Substitute(s, params), Placeholder(params[k].0))
    decreases |params|
  {
    if |params| > 0 {
      var m, rep := params[0].0, ValueString(params[0].1);
      var s1 := ReplaceAll(s, Placeholder(m), rep);
      ReplaceCreatesNoPlaceholder(s, m, rep, m, false);
      ReplaceKeepsFlat(s, m, rep, false);
      SubstituteKeepsAbsent(s1, params[1..], m);
      SubstituteReplacesAll(s1, params[1..]);
      forall k | 1 <= k < |params|
        ensures params[k].0 == params[1..][k - 1].0
      {
      }
    }
  }

  /**
    Without flatness the claim fails: a replaced placeholder nested in braces
    can leave the placeholder behind again.
   */
  lemma NestedPlaceholderReappears()
    ensures Substitute("{{n}}", [("n", PStr("n"))]) == "{n}"
  {
    var pn := Placeholder("n");
    assert pn == "{n}";
    assert "{{n}}"[..3] != pn;
    assert "{{n}}"[1..] == "" + pn + "}";
    ReplaceAllAt("", pn, "}", "n");
    assert ReplaceAll("}", pn, "n") == "}";
  }

  /** The substitution loop inside `t`: one `replace` per parameter. */
  method SubstituteParams(s: string, params: seq<(string, ParamValue)>) returns (r: string)
    ensures r == Substitute(s, params)
  {
    r := s;
    var i := 0;
    while i < |params|
      invariant 0 <= i <= |params|
      invariant Substitute(r, params[i..]) == Substitute(s, params)
    {
      assert params[i..][1..] == params[i + 1..];
      r := ReplaceAll(r, Placeholder(params[i].0), ValueString(params[i].1));
      i := i + 1;
    }
  }

  // ---------------------------------------------------------------------------
  // The translation function
  // ---------------------------------------------------------------------------

  /** The two bundled dictionaries. */
  datatype Dictionaries = Dictionaries(ar: JVal, en: JVal)

  function Dictionary(d: Dictionaries, l: Language): JVal {
    match l
    case Ar => d.ar
    case En => d.en
  }

  /** A walk that ends on a string yields that string with parameters substituted, and otherwise `orElse`. */
  function Resolve(w: Walked, params: seq<(string, ParamValue)>, orElse: string): string {
    if w.Done? && w.value.JStr? then Substitute(w.value.s, params) else orElse
  }

  /** What `t(key, params)` returns in language `l`. */
  function Translate(d: Dictionaries, l: Language, key: string, params: seq<(string, ParamValue)>): string {
    var keys := Split(key, '.');
    var w := Walk(Dictionary(d, l), keys);
    if w.Threw? then
      if l == En then key else Resolve(Walk(d.en, keys), params, key)
    else Resolve(w, params, key)
  }

  /** A path that reaches a string gives that string with its placeholders filled in. */
  lemma TranslateFound(d: Dictionaries, l: Language, key: string, params: seq<(string, ParamValue)>, s: string)
    requires Walk(Dictionary(d, l), Split(key, '.')) == Done(JStr(s))
    ensures Translate(d, l, key, params) == Substitute(s, params)
  {
  }

  /**
    A path that is walked to its end without a string — a missing last
    segment, or one naming an object — gives back the key, whatever English says.
   */
  lemma TranslateNotStringNoFallback(d: Dictionaries, l: Language, key: string, params: seq<(string, ParamValue)>)
    requires Walk(Dictionary(d, l), Split(key, '.')).Done?
    requires !Walk(Dictionary(d, l), Split(key, '.')).value.JStr?
    ensures Translate(d, l, key, params) == key
  {
  }

  /**
    When an intermediate segment is missing in Arabic, the same path is walked
    in English; a string found there is used, and otherwise the key is returned.
   */
  lemma TranslateFallback(d: Dictionaries, key: string, params: seq<(string, ParamValue)>, i: nat)
    requires i < |Split(key, '.')|
    requires Walk(d.ar, Split(key, '.')[..i]) == Done(Undefined)
    ensures Translate(d, Ar, key, params) == Resolve(Walk(d.en, Split(key, '.')), params, key)
  {
    WalkThrowsIff(d.ar, Split(key, '.'));
  }

  /** In English a missing intermediate segment gives the key: there is nothing to fall back on. */
  lemma TranslateEnglishNoFallback(d: Dictionaries, key: string, params: seq<(string, ParamValue)>, i: nat)
    requires i < |Split(key, '.')|
    requires Walk(d.en, Split(key, '.')[..i]) == Done(Undefined)
    ensures Translate(d, En, key, params) == key
  {
    WalkThrowsIff(d.en, Split(key, '.'));
  }

  /**
    The result is always either the key or a dictionary string, of the active
    language or of English, with parameters substituted.
   */
  lemma TranslateResultSource(d: Dictionaries, l: Language, key: string, params: seq<(string, ParamValue)>)
    ensures var r := Translate(d, l, key, params);
      r == key
      || (exists s :: Walk(Dictionary(d, l), Split(key, '.')) == Done(JStr(s)) && r == Substitute(s, params))
      || (exists s :: Walk(d.en, Split(key, '.')) == Done(JStr(s)) && r == Substitute(s, params))
  {
    var keys := Split(key, '.');
    var w := Walk(Dictionary(d, l), keys);
    if w.Done? && w.value.JStr? {
      assert Walk(Dictionary(d, l), keys) == Done(JStr(w.value.s));
    } else if w.Threw? && l != En {
      var e := Walk(d.en, keys);
      if e.Done? && e.value.JStr? {
        assert Walk(d.en, keys) == Done(JStr(e.value.s));
      }
    }
  }

  /** A key `section.field`, neither part holding a dot, has exactly those two segments. */
  lemma TwoSegments(section: string, field: string)
    requires '.' !in section && '.' !in field
    ensures Split(section + "." + field, '.') == [section, field]
  {
    assert section + "." + field == section + ['.'] + field;
    SplitFirst(section, '.', field);
    SplitNoSeparator(field, '.');
  }

  /** A dictionary holding one section with the given fields. */
  function OneSection(section: string, fields: map<string, JVal>): JVal {
    JObj(map[section := JObj(fields)])
  }

  /**
    When Arabic has the section but not the field and English has both, the
    Arabic lookup of `section.field` returns the key, not the English text.
   */
  lemma MissingLastSegmentReturnsKey(section: string, field: string, text: string)
    requires '.' !in section && '.' !in field
    ensures var d := Dictionaries(OneSection(section, map[]), OneSection(section, map[field := JStr(text)]));
      Translate(d, Ar, section + "." + field, []) == section + "." + field
      && Translate(d, En, section + "." + field, []) == text
  {
    TwoSegments(section, field);
    var keys := [section, field];
    assert keys[1..] == [field] && [field][1..] == [];
    assert Walk(OneSection(section, map[]), keys) == Walk(JObj(map[]), [field]) == Done(Undefined);
    assert Walk(OneSection(section, map[field := JStr(text)]), keys) == Walk(JObj(map[field := JStr(text)]), [field])
      == Done(JStr(text));
  }

  /** When Arabic lacks the whole section, the Arabic lookup falls back to the English text. */
  lemma MissingSectionFallsBack(section: string, field: string, text: string)
    requires '.' !in section && '.' !in field
    ensures Translate(Dictionaries(JObj(map[]), OneSection(section, map[field := JStr(text)])), Ar, section + "." + field, [])
      == text
  {
    var d := Dictionaries(JObj(map[]), OneSection(section, map[field := JStr(text)]));
    TwoSegments(section, field);
    var keys := [section, field];
    assert keys[..1] == [section] && keys[1..] == [field] && [field][1..] == [];
    assert Walk(d.ar, keys[..1]) == Walk(Undefined, []) == Done(Undefined);
    TranslateFallback(d, section + "." + field, [], 1);
    assert Walk(d.en, keys) == Walk(JObj(map[field := JStr(text)]), [field]) == Done(JStr(text));
  }

  // ---------------------------------------------------------------------------
  // The provider's state
  // ---------------------------------------------------------------------------

  /** The local-storage key holding the chosen language. */
  const StorageKey := "haramain-volunteers-lang"

  /**
    The language a freshly loaded page adopts: the stored language when it is
    `ar` or `en`, and Arabic otherwise.
   */
  function InitialLanguage(storage: map<string, string>): (r: Language)
    ensures StorageKey in storage && storage[StorageKey] == "en" <==> r == En
  {
    var stored := if StorageKey in storage then Some(storage[StorageKey]) else None;
    match ParseLanguage(stored)
    case Some(l) => l
    case None => Ar
  }

  /** The provider: its language, whether it has loaded, and the browser state it writes. */
  class LanguageProvider {
    const dictionaries: Dictionaries
    var language: Language
    var isLoaded: bool
    var storage: map<string, string>
    var documentLang: string
    var documentDir: string

    constructor(d: Dictionaries, storage: map<string, string>, documentLang: string, documentDir: string)
      ensures dictionaries == d && language == Ar && !isLoaded
      ensures this.storage == storage
      ensures this.documentLang == documentLang && this.documentDir == documentDir
    {
      dictionaries := d;
      language := Ar;
      isLoaded := false;
      this.storage := storage;
      this.documentLang := documentLang;
      this.documentDir := documentDir;
    }

    /** Children are rendered only once the stored language has been read. */
    predicate RendersChildren()
      reads this
    {
      isLoaded
    }

    /** The first client render: adopt the stored language, then write it to the document. */
    method Load()
      modifies this
      ensures language == InitialLanguage(old(storage)) && isLoaded
      ensures documentLang == Code(language) && documentDir == Dir(language)
      ensures storage == old(storage)
    {
      language := InitialLanguage(storage);
      isLoaded := true;
      documentLang := Code(language);
      documentDir := Dir(language);
    }

    /** `setLanguage`: record the language, store it, and update the document's lang and dir. */
    method SetLanguage(l: Language)
      modifies this
      ensures language == l
      ensures storage == old(storage)[StorageKey := Code(l)]
      ensures documentLang == Code(l) && documentDir == Dir(l)
      ensures isLoaded == old(isLoaded)
    {
      language := l;
      storage := storage[StorageKey := Code(l)];
      documentLang := Code(l);
      documentDir := Dir(l);
    }

    /**
      `t(key, params)`: the segment walk as a loop, the English retry when it
      throws, then the substitution loop. The retry's `break` on `undefined` and
      its caught error on `null` both end in returning the key, as `Walk`'s
      `Threw` does.
     */
    method T(key: string, params: seq<(string, ParamValue)>) returns (r: string)
      ensures r == Translate(dictionaries, language, key, params)
    {
      var keys := Split(key, '.');
      var threw, result := WalkLoop(Dictionary(dictionaries, language), keys);
      if !threw {
        if result.JStr? {
          r := SubstituteParams(result.s, params);
        } else {
          r := key;
        }
      } else if language == En {
        r := key;
      } else {
        var fallbackThrew, fallback := WalkLoop(dictionaries.en, keys);
        if !fallbackThrew && fallback.JStr? {
          r := SubstituteParams(fallback.s, params);
        } else {
          r := key;
        }
      }
    }
  }

  /** `for (const k of keys) { if (result === undefined) throw ...; result = result[k]; }` */
  method WalkLoop(start: JVal, keys: seq<string>) returns (threw: bool, result: JVal)
    ensures Walk(start, keys) == if threw then Threw else Done(result)
  {
    result := start;
    threw := false;
    var i := 0;
    while i < |keys| && !threw
      invariant 0 <= i <= |keys|
      invariant threw ==> Walk(start, keys) == Threw
      invariant !threw ==> Walk(start, keys) == Walk(result, keys[i..])
      decreases |keys| - i, !threw
    {
      if result.Undefined? || result.Null? {
        threw := true;
      } else {
        assert keys[i..][1..] == keys[i + 1..];
        result := Get(result, keys[i]);
        i := i + 1;
      }
    }
  }
}
