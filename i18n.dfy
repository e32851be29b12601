/** The locale layer: dotted-path lookup in the translation tables, the
    `t` helper the templates call with its locale → English → key
    fallback, and the middleware that picks the language of a request. */
module I18n {

  import opened JsText

  /** A value met while walking a translation table. */
  datatype JsValue = Undefined | Null | Str(s: string) | Obj(fields: map<string, JsValue>)

  /** JavaScript truthiness of a value: objects are truthy, strings when not empty. */
  predicate TruthyValue(v: JsValue)
  {
    v.Obj? || (v.Str? && v.s != "")
  }

  /** `prev ? prev[curr] : null`: one step of the walk. A missing property
      reads as `undefined`. */
  function Step(prev: JsValue, key: string): (r: JsValue)
    ensures !TruthyValue(prev) ==> r == Null
    ensures prev.Obj? && key in prev.fields ==> r == prev.fields[key]
    ensures prev.Obj? && key !in prev.fields ==> r == Undefined
  {
    if !TruthyValue(prev) then Null
    else match prev
      case Obj(fields) => if key in fields then fields[key] else Undefined
      case _ => Undefined
  }

  /** `Step` applied to `v` with each key of the path in turn. */
  function Walk(v: JsValue, keys: seq<string>): JsValue
    decreases |keys|
  {
    if keys == [] then v else Walk(Step(v, keys[0]), keys[1..])
  }

  /** `translate(obj, path)`. */
  function Translate(obj: JsValue, path: string): JsValue
  {
    Walk(obj, Split(path, '.'))
  }

  /** Once the walk reaches a falsy value, every further step gives `null`. */
  lemma {:induction false} WalkFromFalsy(v: JsValue, keys: seq<string>)
    requires !TruthyValue(v) && keys != []
    ensures Walk(v, keys) == Null
    decreases |keys|
  {
    if |keys| > 1 {
      WalkFromFalsy(Null, keys[1..]);
    }
  }

  /** Walking a path in two stretches is walking it at once. */
  lemma {:induction false} WalkAppend(v: JsValue, a: seq<string>, b: seq<string>)
    ensures Walk(v, a + b) == Walk(Walk(v, a), b)
    decreases |a|
  {
    if a == [] {
      assert a + b == b;
    } else {
      assert (a + b)[1..] == a[1..] + b;
      WalkAppend(Step(v, a[0]), a[1..], b);
    }
  }

  /** A path without a dot is one property access: `obj[path]`, or `null`
      when `obj` itself is falsy. */
  lemma SingleSegment(obj: JsValue, path: string)
    requires '.' !in path
    ensures Translate(obj, path) == Step(obj, path)
  {
    SplitNoSeparator(path, '.');
    assert [path][1..] == [];
    assert Walk(obj, [path]) == Walk(Step(obj, path), []);
  }

  /** `a.b` is `b` looked up in what `a` gives. */
  lemma DottedPath(obj: JsValue, a: string, b: string)
    requires '.' !in a
    ensures Translate(obj, a + "." + b) == Translate(Step(obj, a), b)
  {
    var s := a + "." + b;
    assert s[|a|] == '.';
    assert forall k :: 0 <= k < |a| ==> s[k] == a[k];
    IndexOfFromAt(s, '.', 0, |a|);
    assert s[..|a|] == a && s[|a| + 1..] == b;
    assert Split(s, '.') == [a] + Split(b, '.');
    WalkAppend(obj, [a], Split(b, '.'));
  }

  /** `i18n[lang]`: the table of a language, `undefined` for a language
      without one. */
  function Table(tables: map<string, JsValue>, lang: string): (v: JsValue)
    ensures lang !in tables ==> v == Undefined
    ensures lang in tables ==> v == tables[lang]
  {
    if lang in tables then tables[lang] else Undefined
  }

  /** `t(key)` for the request language `baseLang`: the translation when it
      is truthy, else the English one when that is, else the key itself. */
  function T(tables: map<string, JsValue>, baseLang: string, key: string): (r: JsValue)
    ensures TruthyValue(Translate(Table(tables, baseLang), key)) ==> r == Translate(Table(tables, baseLang), key)
    ensures !TruthyValue(Translate(Table(tables, baseLang), key)) && TruthyValue(Translate(Table(tables, "en"), key))
      ==> r == Translate(Table(tables, "en"), key)
    ensures !TruthyValue(Translate(Table(tables, baseLang), key)) && !TruthyValue(Translate(Table(tables, "en"), key))
      ==> r == Str(key)
  {
    var translation := Translate(Table(tables, baseLang), key);
    if TruthyValue(translation) then translation
    else
      var english := Translate(Table(tables, "en"), key);
      if TruthyValue(english) then english else Str(key)
  }

  /** `t` never gives a falsy value for a non-empty key, and what it gives
      is a translation found in one of the two tables or the key. */
  lemma TNeverFalsy(tables: map<string, JsValue>, baseLang: string, key: string)
    requires key != ""
    ensures TruthyValue(T(tables, baseLang, key))
    ensures var r := T(tables, baseLang, key);
      r == Translate(Table(tables, baseLang), key) || r == Translate(Table(tables, "en"), key) || r == Str(key)
  {
  }

  /** The language of a request: the first two characters of the `lang`
      route parameter, or `en` when there is none. */
  function BaseLang(lang: Option<string>): (b: string)
    ensures !Truthy(lang) ==> b == "en"
    ensures Truthy(lang) ==> StartsWith(lang.value, b) && |b| == (if |lang.value| < 2 then |lang.value| else 2)
  {
    if Truthy(lang) then lang.value[..if |lang.value| < 2 then |lang.value| else 2] else "en"
  }

  /** The region the cookie pairs with a language. */
  function Region(lang: string): (r: string)
    ensures lang == "zh" ==> r == "TW"
    ensures lang == "es" ==> r == "MX"
    ensures lang == "ja" ==> r == "JP"
    ensures lang != "zh" && lang != "es" && lang != "ja" ==> r == ToUpper(lang)
  {
    if lang == "zh" then "TW" else if lang == "es" then "MX" else if lang == "ja" then "JP" else ToUpper(lang)
  }

  /** The value of the `lang` cookie: `en-US` without a language,
      otherwise the whole parameter, a dash and its region. */
  function CookieValue(lang: Option<string>): (c: string)
    ensures !Truthy(lang) ==> c == "en-US"
    ensures Truthy(lang) ==> c == lang.value + "-" + Region(lang.value)
  {
    if Truthy(lang) then lang.value + "-" + Region(lang.value) else "en-US"
  }

  /** The known locales get their usual region; any other language is
      paired with itself in upper case, so that `en` gives `en-EN`. */
  lemma CookieExamples()
    ensures CookieValue(None) == "en-US" && CookieValue(Some("")) == "en-US"
    ensures CookieValue(Some("zh")) == "zh-TW" && CookieValue(Some("es")) == "es-MX"
    ensures CookieValue(Some("ja")) == "ja-JP"
    ensures CookieValue(Some("en")) == "en-EN" && CookieValue(Some("nl")) == "nl-NL"
  {
    assert ToUpper("en") == "EN";
    assert ToUpper("nl") == "NL";
  }

  datatype Cookie = Cookie(name: string, value: string)

  /** The parts of the Express response the middleware touches. */
  class Exchange {
    /** `res.locals.lang`. */
    var localsLang: Option<string>
    /** The language `res.locals.t` looks words up in, once it is set. */
    var localsTLang: Option<string>
    /** `res.cookie(name, value)` calls, in order. */
    var cookies: seq<Cookie>
    /** How many times `next()` has been called. */
    var nextCalls: nat

    constructor ()
      ensures localsLang.None? && localsTLang.None? && cookies == [] && nextCalls == 0
    {
      localsLang, localsTLang, cookies, nextCalls := None, None, [], 0;
    }

    /** What `res.locals.t(key)` gives once the middleware has run. */
    function LocalT(tables: map<string, JsValue>, key: string): JsValue
      reads this
      requires localsTLang.Some?
    {
      T(tables, localsTLang.value, key)
    }

    /** `i18nMiddleware`: sets `t` and `lang` in the locals, sets the `lang`
        cookie and calls `next` once, on both branches. */
    method Middleware(lang: Option<string>)
      modifies this
      ensures localsLang == Some(BaseLang(lang)) && localsTLang == Some(BaseLang(lang))
      ensures cookies == old(cookies) + [Cookie("lang", CookieValue(lang))]
      ensures nextCalls == old(nextCalls) + 1
    {
      var baseLang := BaseLang(lang);
      localsTLang := Some(baseLang);
      localsLang := Some(baseLang);
      if !Truthy(lang) {
        cookies := cookies + [Cookie("lang", "en-US")];
        nextCalls := nextCalls + 1;
      } else {
        cookies := cookies + [Cookie("lang", lang.value + "-" + Region(lang.value))];
        nextCalls := nextCalls + 1;
      }
    }
  }
}
