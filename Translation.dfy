/**
 * The `t` helper of src/hooks/useTranslation.ts: split a dotted path and walk
 * it from the current locale's dictionary, falling back to the path itself.
 */
module Translation {
  import opened Optional
  import opened Text
  import opened Js

  /** One step of the walk: `result && result[key]` taken when truthy. */
  function Step(result: Value, key: string): Option<Value>
  {
    if Truthy(result) && Truthy(Member(result, key).value) then Member(result, key) else None
  }

  /** The value reached along `keys`, or None as soon as a step is missing or falsy. */
  function Walk(start: Value, keys: seq<string>): Option<Value>
  {
    if keys == [] then Some(start)
    else match Step(start, keys[0])
      case None => None
      case Some(next) => Walk(next, keys[1..])
  }

  /** `dictionaries[locale]` */
  function Dictionary(dictionaries: map<string, Value>, locale: string): Value
  {
    if locale in dictionaries then dictionaries[locale] else Undefined
  }

  /** What `t(path)` returns. */
  function Translate(dictionaries: map<string, Value>, locale: string, path: string): Value
  {
    match Walk(Dictionary(dictionaries, locale), Split(path, '.'))
    case Some(v) => v
    case None => Str(path)
  }

  /** Walking a path in two parts is walking the first part and then the second. */
  lemma {:induction false} WalkAppend(start: Value, a: seq<string>, b: seq<string>)
    ensures Walk(start, a + b) ==
      match Walk(start, a) case None => None case Some(mid) => Walk(mid, b)
    decreases |a|
  {
    if a == [] {
      assert a + b == b;
    } else {
      assert (a + b)[0] == a[0] && (a + b)[1..] == a[1..] + b;
      if Step(start, a[0]).Some? {
        WalkAppend(Step(start, a[0]).value, a[1..], b);
      }
    }
  }

  /** A walk over at least one key ends on a truthy value. */
  lemma {:induction false} WalkEndsTruthy(start: Value, keys: seq<string>)
    requires |keys| >= 1 && Walk(start, keys).Some?
    ensures Truthy(Walk(start, keys).value)
    decreases |keys|
  {
    if |keys| > 1 {
      WalkEndsTruthy(Step(start, keys[0]).value, keys[1..]);
    }
  }

  /** `t` returns a truthy value found at the end of the path, or else the path. */
  lemma TranslateTruthyOrPath(dictionaries: map<string, Value>, locale: string, path: string)
    ensures Truthy(Translate(dictionaries, locale, path)) || Translate(dictionaries, locale, path) == Str(path)
  {
    var keys := Split(path, '.');
    if Walk(Dictionary(dictionaries, locale), keys).Some? {
      WalkEndsTruthy(Dictionary(dictionaries, locale), keys);
    }
  }

  /** A missing or falsy segment anywhere makes `t` fall back to the path, whatever follows. */
  lemma MissingSegmentFallsBack(dictionaries: map<string, Value>, locale: string, path: string, i: nat)
    requires i < |Split(path, '.')|
    requires var keys := Split(path, '.');
      var reached := Walk(Dictionary(dictionaries, locale), keys[..i]);
      reached.Some? && Step(reached.value, keys[i]).None?
    ensures Translate(dictionaries, locale, path) == Str(path)
  {
    var keys := Split(path, '.');
    assert keys == keys[..i] + keys[i..];
    WalkAppend(Dictionary(dictionaries, locale), keys[..i], keys[i..]);
  }

  /** An unknown locale makes every path translate to itself. */
  lemma UnknownLocale(dictionaries: map<string, Value>, locale: string, path: string)
    requires locale !in dictionaries
    ensures Translate(dictionaries, locale, path) == Str(path)
  {
  }

  /** `t(path)`: the loop over the segments with its early return. */
  method T(dictionaries: map<string, Value>, locale: string, path: string) returns (r: Value)
    ensures r == Translate(dictionaries, locale, path)
  {
    var keys := Split(path, '.');
    var result := Dictionary(dictionaries, locale);
    for i := 0 to |keys|
      invariant Walk(Dictionary(dictionaries, locale), keys) == Walk(result, keys[i..])
    {
      if Truthy(result) && Truthy(Member(result, keys[i]).value) {
        result := Member(result, keys[i]).value;
      } else {
        return Str(path);
      }
    }
    return result;
  }
}
