/** The language context: the initial language choice and the dotted-key
    translation lookup `t`. */
module Language {
  import opened Common
  import opened Strings
  import opened JsonValues

  const DefaultLanguage := "en"

  /** The saved preference is used whenever it is a non-empty string (it is
      not checked against the supported languages); otherwise English. */
  function InitialLanguage(saved: Option<string>): (language: string)
    ensures language != ""
    ensures Present(saved) ==> language == saved.value
    ensures !Present(saved) ==> language == DefaultLanguage
  {
    if Present(saved) then saved.value else DefaultLanguage
  }

  predicate IsDigit(c: char) {
    '0' <= c <= '9'
  }

  function DecimalValue(k: string): nat
    requires forall i :: 0 <= i < |k| ==> IsDigit(k[i])
    decreases |k|
  {
    if k == [] then 0
    else
      assert IsDigit(k[|k| - 1]);
      DecimalValue(k[..|k| - 1]) * 10 + (k[|k| - 1] as int - '0' as int)
  }

  /** The array index a property name denotes: a canonical decimal numeral
      ("0", or digits without a leading zero). */
  function ArrayIndex(k: string): Option<nat> {
    if k != "" && (forall i :: 0 <= i < |k| ==> IsDigit(k[i])) && (k[0] != '0' || |k| == 1)
    then Some(DecimalValue(k))
    else None
  }

  /** One iteration of the walk: descend into `value` by the segment `k` if
      `value` is an object (or array) holding that own property. Inherited
      members such as `length` or `constructor` also pass the source's `in`
      check, but none of them is a string or leads to one, so treating them as
      absent gives the same final answer. */
  function Step(value: Json, k: string): Option<Json> {
    match value
    case JObject(fields) => if k in fields then Some(fields[k]) else None
    case JArray(items) =>
      var i := ArrayIndex(k);
      if i.Some? && i.value < |items| then Some(items[i.value]) else None
    case _ => None
  }

  /** The value found by walking `path` from `value`, if every step exists. */
  function Lookup(value: Json, path: seq<string>): Option<Json>
    decreases |path|
  {
    if path == [] then Some(value)
    else
      match Step(value, path[0])
      case None => None
      case Some(child) => Lookup(child, path[1..])
  }

  /** `t(key)`: the string stored at the dotted path, and the key itself in
      every other case. */
  function Translate(translations: map<string, Json>, key: string): (r: string)
    ensures r == key || Lookup(JObject(translations), Split(key, '.')) == Some(JString(r))
  {
    match Lookup(JObject(translations), Split(key, '.'))
    case Some(JString(s)) => s
    case _ => key
  }

  /** The loop of `t`: walks the segments one at a time, reassigning the
      current value, and returns the key as soon as a step fails. */
  method T(translations: map<string, Json>, key: string) returns (r: string)
    ensures r == Translate(translations, key)
  {
    var keys := Split(key, '.');
    var value := JObject(translations);
    var i := 0;
    while i < |keys|
      invariant 0 <= i <= |keys|
      invariant Lookup(JObject(translations), keys) == Lookup(value, keys[i..])
    {
      var next := Step(value, keys[i]);
      if next.None? {
        return key;
      }
      value := next.value;
      i := i + 1;
    }
    r := if value.JString? then value.s else key;
  }

  /** Walking `p + q` is walking `p`, then `q` from where `p` ended. */
  lemma {:induction false} LookupAppend(value: Json, p: seq<string>, q: seq<string>)
    ensures Lookup(value, p + q) ==
            match Lookup(value, p)
            case None => None
            case Some(w) => Lookup(w, q)
    decreases |p|
  {
    if p != [] {
      assert (p + q)[0] == p[0] && (p + q)[1..] == p[1..] + q;
      match Step(value, p[0])
      case None =>
      case Some(child) => LookupAppend(child, p[1..], q);
    } else {
      assert p + q == q;
    }
  }

  /** If the walk reaches some value after `i` segments and the next segment
      is missing there (or that value is not an object), `t` returns the key. */
  lemma MissingSegmentGivesKey(translations: map<string, Json>, key: string, i: nat)
    requires i < |Split(key, '.')|
    requires Lookup(JObject(translations), Split(key, '.')[..i]).Some?
    requires Step(Lookup(JObject(translations), Split(key, '.')[..i]).value, Split(key, '.')[i]).None?
    ensures Translate(translations, key) == key
  {
    var path := Split(key, '.');
    var root := JObject(translations);
    assert path == path[..i] + path[i..];
    LookupAppend(root, path[..i], path[i..]);
  }

  /** A path that ends at an object, an array, a number, a boolean or null
      gives the key. */
  lemma NonStringGivesKey(translations: map<string, Json>, key: string)
    requires Lookup(JObject(translations), Split(key, '.')).Some?
    requires !Lookup(JObject(translations), Split(key, '.')).value.JString?
    ensures Translate(translations, key) == key
  {
  }

  /** Before any translation file is loaded the tree is `{}`, and every key
      translates to itself. */
  lemma EmptyTreeGivesKey(key: string)
    ensures Translate(map[], key) == key
  {
  }

  /** A string stored at the path `segments` is what `t` returns for the
      dotted key built from those segments. */
  lemma StoredStringIsFound(translations: map<string, Json>, segments: seq<string>, s: string)
    requires |segments| >= 1
    requires forall i :: 0 <= i < |segments| ==> '.' !in segments[i]
    requires Lookup(JObject(translations), segments) == Some(JString(s))
    ensures Translate(translations, Join(segments, '.')) == s
  {
    SplitJoin(segments, '.');
  }
}
