/**
 * The JSON helpers of the engine: the fallback extraction of a JSON value from
 * free-form model text (`_extract_json`), the required-key check
 * (`_validate`) and the reshaping of a loosely structured value toward a
 * list of objects (`_WRAPPER_KEYS`, `_coerce_json_shape`).
 *
 * Parsing is `json.loads`, kept abstract: a function from text to an optional
 * JSON value, passed in by the caller.
 */
module JsonHelpers {
  import opened Wrappers
  import opened Values

  // ---------------------------------------------------------------------------
  // _extract_json: the non-greedy search for `(\{.*?\}|\[.*?\])`, DOTALL
  // ---------------------------------------------------------------------------

  predicate IsOpener(c: char)
  {
    c == '{' || c == '['
  }

  /** The closing bracket that ends a span opened by `c`. */
  function Closer(c: char): char
  {
    if c == '{' then '}' else ']'
  }

  /** The regular expression can match at position `i`: an opener there with its closer somewhere after it. */
  predicate OpensSpan(s: string, i: int)
  {
    0 <= i < |s| && IsOpener(s[i]) && exists j :: i < j < |s| && s[j] == Closer(s[i])
  }

  /** `s[a..b]` is a non-greedy match: an opener, then the nearest closer of its kind. */
  predicate LazyMatch(s: string, a: int, b: int)
  {
    && 0 <= a && a + 2 <= b <= |s|
    && IsOpener(s[a])
    && s[b - 1] == Closer(s[a])
    && forall k :: a < k < b - 1 ==> s[k] != Closer(s[a])
  }

  /** `s[a..b]` is the match a left-to-right search starting at `from` finds. */
  predicate FirstMatchFrom(s: string, from: int, a: int, b: int)
  {
    from <= a && LazyMatch(s, a, b) && forall k :: from <= k < a ==> !OpensSpan(s, k)
  }

  /** The first index at or after `from` holding `c`. */
  function IndexFrom(s: string, c: char, from: nat): (r: Option<nat>)
    requires from <= |s|
    ensures r.Some? ==> from <= r.value < |s| && s[r.value] == c
                        && forall k :: from <= k < r.value ==> s[k] != c
    ensures r.None? ==> forall k :: from <= k < |s| ==> s[k] != c
    decreases |s| - from
  {
    if from == |s| then None
    else if s[from] == c then Some(from)
    else IndexFrom(s, c, from + 1)
  }

  /** `re.search` from position `i`: the bounds of the first match, if any. */
  function SpanFrom(s: string, i: nat): (r: Option<(nat, nat)>)
    requires i <= |s|
    ensures r.Some? ==> FirstMatchFrom(s, i, r.value.0, r.value.1)
    ensures r.None? ==> forall k :: i <= k < |s| ==> !OpensSpan(s, k)
    decreases |s| - i
  {
    if i == |s| then None
    else if IsOpener(s[i]) then
      match IndexFrom(s, Closer(s[i]), i + 1)
      case Some(j) => Some((i, j + 1))
      case None => SpanFrom(s, i + 1)
    else SpanFrom(s, i + 1)
  }

  /**
   * The bounds of the first `{…}` or `[…]` span of `s`: it starts at the first
   * opener that has a closer of its kind later on and ends at the nearest such
   * closer; there is none when no opener has one.
   */
  function FirstSpan(s: string): (r: Option<(nat, nat)>)
    ensures r.Some? ==> FirstMatchFrom(s, 0, r.value.0, r.value.1)
    ensures r.None? <==> forall k :: 0 <= k < |s| ==> !OpensSpan(s, k)
  {
    var r := SpanFrom(s, 0);
    if r.Some? then
      LazyMatchOpens(s, r.value.0, r.value.1);
      r
    else r
  }

  lemma LazyMatchOpens(s: string, a: int, b: int)
    requires LazyMatch(s, a, b)
    ensures OpensSpan(s, a)
  {
    assert s[b - 1] == Closer(s[a]);
  }

  /** A left-to-right search finds one match only: its start and its end are determined. */
  lemma FirstMatchUnique(s: string, from: int, a: int, b: int, a': int, b': int)
    requires FirstMatchFrom(s, from, a, b) && FirstMatchFrom(s, from, a', b')
    ensures a == a' && b == b'
  {
    if a < a' {
      LazyMatchOpens(s, a, b);
      assert false;
    } else if a' < a {
      LazyMatchOpens(s, a', b');
      assert false;
    }
    if b < b' {
      assert false;
    } else if b' < b {
      assert false;
    }
  }

  /** Every match a search from the start finds is the one `FirstSpan` returns. */
  lemma FirstSpanIsTheMatch(s: string)
    ensures forall a, b :: FirstMatchFrom(s, 0, a, b) ==> FirstSpan(s) == Some((a as nat, b as nat))
  {
    forall a, b | FirstMatchFrom(s, 0, a, b)
      ensures FirstSpan(s) == Some((a as nat, b as nat))
    {
      LazyMatchOpens(s, a, b);
      var r := FirstSpan(s);
      FirstMatchUnique(s, 0, a, b, r.value.0, r.value.1);
    }
  }

  /**
   * `_extract_json`: the whole text if it parses; otherwise the first span if it
   * parses; otherwise `None`.
   */
  function ExtractJson(text: string, parse: string -> Option<Json>): (r: Json)
    ensures parse(text).Some? ==> r == parse(text).value
    ensures parse(text).None? ==>
              r == Null || exists a, b :: FirstMatchFrom(text, 0, a, b) && parse(text[a..b]) == Some(r)
    ensures parse(text).None? && FirstSpan(text).None? ==> r == Null
    ensures forall a, b :: parse(text).None? && FirstMatchFrom(text, 0, a, b) ==>
              r == if parse(text[a..b]).Some? then parse(text[a..b]).value else Null
  {
    FirstSpanIsTheMatch(text);
    match parse(text)
    case Some(v) => v
    case None =>
      match FirstSpan(text)
      case None => Null
      case Some(span) =>
        match parse(text[span.0..span.1])
        case Some(v) => v
        case None => Null
  }

  // ---------------------------------------------------------------------------
  // _validate
  // ---------------------------------------------------------------------------

  /**
   * The verdict of `_validate`. `Pass` is `(True, "")`; the other constructors
   * carry what the reason text reports (the item index, the missing keys).
   */
  datatype Verdict =
    | Pass
    | ItemNotDict(index: nat)
    | ItemMissing(index: nat, missing: seq<string>)
    | MissingKeys(missing: seq<string>)
    | NotDictOrList

  /** `[k for k in required if k not in m]`. */
  function Missing(required: seq<string>, m: map<string, Json>): (miss: seq<string>)
    ensures forall k :: k in miss <==> k in required && k !in m
    ensures |miss| <= |required|
  {
    if required == [] then []
    else (if required[0] !in m then [required[0]] else []) + Missing(required[1..], m)
  }

  /** Missing keys are listed in the order of `required`, repeats included: the list splits as `required` does. */
  lemma {:induction false} MissingAppend(a: seq<string>, b: seq<string>, m: map<string, Json>)
    ensures Missing(a + b, m) == Missing(a, m) + Missing(b, m)
    decreases |a|
  {
    if a == [] {
      assert a + b == b;
    } else {
      assert (a + b)[0] == a[0] && (a + b)[1..] == a[1..] + b;
      MissingAppend(a[1..], b, m);
    }
  }

  /** One required key is listed exactly when the dictionary lacks it. */
  lemma MissingOne(k: string, m: map<string, Json>)
    ensures Missing([k], m) == if k in m then [] else [k]
  {
    assert [k][1..] == [];
  }

  /** No key is missing exactly when the dictionary holds every required key. */
  lemma MissingNone(required: seq<string>, m: map<string, Json>)
    ensures Missing(required, m) == [] <==> HasAll(Obj(m), required)
  {
    var miss := Missing(required, m);
    if miss != [] {
      assert miss[0] in miss;
    }
  }

  /** The loop over the items of a list, from index `i` on. */
  function ValidateItems(items: seq<Json>, required: seq<string>, i: nat): (v: Verdict)
    requires i <= |items|
    ensures v.Pass? || v.ItemNotDict? || v.ItemMissing?
    ensures v.Pass? <==> forall j :: i <= j < |items| ==> HasAll(items[j], required)
    ensures v.ItemNotDict? ==> i <= v.index < |items| && !items[v.index].Obj?
    ensures v.ItemMissing? ==> i <= v.index < |items| && items[v.index].Obj?
                               && v.missing == Missing(required, items[v.index].fields) && v.missing != []
    ensures !v.Pass? ==> forall j :: i <= j < v.index ==> HasAll(items[j], required)
    decreases |items| - i
  {
    if i == |items| then Pass
    else if !items[i].Obj? then ItemNotDict(i)
    else
      var miss := Missing(required, items[i].fields);
      MissingNone(required, items[i].fields);
      if miss != [] then ItemMissing(i, miss)
      else ValidateItems(items, required, i + 1)
  }

  /**
   * `_validate`: no required keys accepts anything; a list passes iff every item
   * is a dictionary holding every required key, and otherwise the first bad
   * item is reported; a dictionary passes iff it holds every required key; any
   * other value fails.
   */
  function Validate(obj: Json, required: seq<string>): (v: Verdict)
    ensures required == [] ==> v == Pass
    ensures required != [] && obj.Arr? ==>
              (v.Pass? <==> forall j :: 0 <= j < |obj.items| ==> HasAll(obj.items[j], required))
    ensures required != [] && obj.Arr? && !v.Pass? ==> v.ItemNotDict? || v.ItemMissing?
    ensures v.ItemNotDict? ==> obj.Arr? && v.index < |obj.items| && !obj.items[v.index].Obj?
    ensures v.ItemMissing? ==> obj.Arr? && v.index < |obj.items| && obj.items[v.index].Obj?
                               && v.missing == Missing(required, obj.items[v.index].fields) && v.missing != []
    ensures v.ItemNotDict? || v.ItemMissing? ==> forall j :: 0 <= j < v.index ==> HasAll(obj.items[j], required)
    ensures required != [] && obj.Obj? ==> (v.Pass? <==> HasAll(obj, required))
    ensures required != [] && obj.Obj? && !v.Pass? ==> v == MissingKeys(Missing(required, obj.fields))
    ensures required != [] && !obj.Arr? && !obj.Obj? ==> v == NotDictOrList
  {
    if required == [] then Pass
    else
      match obj
      case Arr(items) => ValidateItems(items, required, 0)
      case Obj(m) =>
        var miss := Missing(required, m);
        if miss == [] then Pass
        else
          assert miss[0] in miss;
          MissingKeys(miss)
      case _ => NotDictOrList
  }

  // ---------------------------------------------------------------------------
  // _WRAPPER_KEYS and _coerce_json_shape
  // ---------------------------------------------------------------------------

  /** The keys under which models tend to wrap the list they were asked for, in priority order. */
  const WrapperKeys: seq<string> := ["items", "data", "result", "results", "topics", "list"]

  /** `k in m and isinstance(m[k], list)`. */
  predicate ListAt(m: map<string, Json>, k: string)
  {
    k in m && m[k].Arr?
  }

  /** The index of the first wrapper key, from position `i` on, whose value is a list. */
  function WrapperFrom(m: map<string, Json>, i: nat): (r: Option<nat>)
    requires i <= |WrapperKeys|
    ensures r.Some? ==> i <= r.value < |WrapperKeys| && ListAt(m, WrapperKeys[r.value])
                        && forall j :: i <= j < r.value ==> !ListAt(m, WrapperKeys[j])
    ensures r.None? ==> forall j :: i <= j < |WrapperKeys| ==> !ListAt(m, WrapperKeys[j])
    decreases |WrapperKeys| - i
  {
    if i == |WrapperKeys| then None
    else if ListAt(m, WrapperKeys[i]) then Some(i)
    else WrapperFrom(m, i + 1)
  }

  /** The index of the first wrapper key of `m` whose value is a list. */
  function Wrapper(m: map<string, Json>): (r: Option<nat>)
    ensures r.Some? ==> r.value < |WrapperKeys| && ListAt(m, WrapperKeys[r.value])
                        && forall j :: 0 <= j < r.value ==> !ListAt(m, WrapperKeys[j])
    ensures r.None? ==> forall j :: 0 <= j < |WrapperKeys| ==> !ListAt(m, WrapperKeys[j])
  {
    WrapperFrom(m, 0)
  }

  /** The first stage: unwrap a dictionary's wrapped list, or promote a complete dictionary to a one-item list. */
  function Reshape(obj: Json, required: seq<string>): Json
  {
    if !obj.Obj? then obj
    else
      match Wrapper(obj.fields)
      case Some(i) => obj.fields[WrapperKeys[i]]
      case None => if required != [] && HasAll(obj, required) then Arr([obj]) else obj
  }

  /** Rename `notes` to `note` when `note` is absent. */
  function RenameNotes(m: map<string, Json>): map<string, Json>
  {
    if "note" !in m && "notes" in m then (m - {"notes"})["note" := m["notes"]] else m
  }

  /** `{k: it.get(k, "") for k in required}` when `required` is non-empty. */
  function Project(m: map<string, Json>, required: seq<string>): (r: map<string, Json>)
    ensures required != [] ==> r.Keys == set k | k in required
    ensures required != [] ==> forall k :: k in required ==> r[k] == (if k in m then m[k] else Str(""))
    ensures required == [] ==> r == m
  {
    if required != [] then map k | k in required :: if k in m then m[k] else Str("") else m
  }

  /** What happens to one dictionary item of the list. */
  function CoerceItem(m: map<string, Json>, required: seq<string>): map<string, Json>
  {
    Project(RenameNotes(m), required)
  }

  predicate AllDicts(xs: seq<Json>)
  {
    forall i :: 0 <= i < |xs| ==> xs[i].Obj?
  }

  function CoerceItems(xs: seq<Json>, required: seq<string>): (ys: seq<Json>)
    requires AllDicts(xs)
    ensures |ys| == |xs|
    ensures forall i :: 0 <= i < |xs| ==> ys[i] == Obj(CoerceItem(xs[i].fields, required))
  {
    seq(|xs|, i requires 0 <= i < |xs| => Obj(CoerceItem(xs[i].fields, required)))
  }

  /** The second stage: a list of dictionaries is rebuilt item by item; any other list is returned as it is. */
  function CoerceList(xs: seq<Json>, required: seq<string>): Json
  {
    if AllDicts(xs) then Arr(CoerceItems(xs, required)) else Arr(xs)
  }

  /** `_coerce_json_shape`, as a function of its two arguments. */
  function Coerce(obj: Json, required: seq<string>): Json
  {
    var o := Reshape(obj, required);
    if o.Arr? then CoerceList(o.items, required) else o
  }

  /**
   * `_coerce_json_shape` as the source writes it: a search over the wrapper
   * keys that stops at the first list, then a loop that copies and rewrites
   * each item, giving up on the first item that is not a dictionary.
   */
  method CoerceJsonShape(obj: Json, required: seq<string>) returns (r: Json)
    ensures r == Coerce(obj, required)
  {
    if obj.Null? {
      return Null;
    }
    var o := obj;
    if o.Obj? {
      var m := o.fields;
      var k := 0;
      var unwrapped := false;
      while k < |WrapperKeys| && !unwrapped
        invariant 0 <= k <= |WrapperKeys|
        invariant !unwrapped ==> o == obj && forall j :: 0 <= j < k ==> !ListAt(m, WrapperKeys[j])
        invariant unwrapped ==> Wrapper(m).Some? && o == m[WrapperKeys[Wrapper(m).value]]
        decreases |WrapperKeys| - k, if unwrapped then 0 else 1
      {
        var key := WrapperKeys[k];
        if key in m && m[key].Arr? {
          o := m[key];
          unwrapped := true;
        } else {
          k := k + 1;
        }
      }
      if !unwrapped && required != [] && forall key <- required :: key in m {
        o := Arr([o]);
      }
    }
    assert o == Reshape(obj, required);
    if o.Arr? {
      var items := o.items;
      var out := [];
      var i := 0;
      while i < |items|
        invariant 0 <= i <= |items|
        invariant |out| == i
        invariant forall j :: 0 <= j < i ==> items[j].Obj? && out[j] == Obj(CoerceItem(items[j].fields, required))
      {
        if !items[i].Obj? {
          return o;
        }
        var it := items[i].fields;
        if "note" !in it && "notes" in it {
          it := (it - {"notes"})["note" := it["notes"]];
        }
        if required != [] {
          it := map key | key in required :: if key in it then it[key] else Str("");
        }
        out := out + [Obj(it)];
        i := i + 1;
      }
      return Arr(out);
    }
    return o;
  }

  // ---------------------------------------------------------------------------
  // Properties of the coercion
  // ---------------------------------------------------------------------------

  /** `None` and scalars pass through unchanged. */
  lemma CoerceKeepsScalars(obj: Json, required: seq<string>)
    requires !obj.Arr? && !obj.Obj?
    ensures Coerce(obj, required) == obj
  {
  }

  /** A dictionary is replaced by the list under its first wrapper key, which is then coerced as a list. */
  lemma CoerceUnwrapsFirstWrapper(m: map<string, Json>, required: seq<string>, i: nat)
    requires i < |WrapperKeys| && ListAt(m, WrapperKeys[i])
    requires forall j :: 0 <= j < i ==> !ListAt(m, WrapperKeys[j])
    ensures Coerce(Obj(m), required) == Coerce(m[WrapperKeys[i]], required)
  {
    assert Wrapper(m) == Some(i);
  }

  /**
   * A dictionary without a list under any wrapper key that holds every
   * (non-empty) required key becomes a one-item list whose item has exactly the
   * required keys; any other such dictionary is returned unchanged.
   */
  lemma CoercePromotesOrKeeps(m: map<string, Json>, required: seq<string>)
    requires forall j :: 0 <= j < |WrapperKeys| ==> !ListAt(m, WrapperKeys[j])
    ensures required != [] && HasAll(Obj(m), required) ==>
              Coerce(Obj(m), required) == Arr([Obj(CoerceItem(m, required))])
              && CoerceItem(m, required).Keys == set k | k in required
    ensures !(required != [] && HasAll(Obj(m), required)) ==> Coerce(Obj(m), required) == Obj(m)
  {
    assert Wrapper(m).None?;
    var xs := [Obj(m)];
    assert AllDicts(xs);
    assert CoerceItems(xs, required) == [Obj(CoerceItem(m, required))];
  }

  /**
   * A list of dictionaries keeps its length; each item has `notes` renamed to
   * `note` when `note` is absent, and with required keys it is projected onto
   * exactly those keys, a missing one filled with `""`.
   */
  lemma {:induction false} CoerceListOfDicts(xs: seq<Json>, required: seq<string>, i: nat)
    requires AllDicts(xs) && i < |xs|
    ensures Coerce(Arr(xs), required).Arr?
    ensures |Coerce(Arr(xs), required).items| == |xs|
    ensures var item := Coerce(Arr(xs), required).items[i];
            var renamed := RenameNotes(xs[i].fields);
            && item.Obj?
            && (required == [] ==> item.fields == renamed)
            && (required != [] ==> item.fields.Keys == set k | k in required)
            && (forall k :: k in required ==> item.fields[k] == if k in renamed then renamed[k] else Str(""))
  {
    var item := Coerce(Arr(xs), required).items[i];
    assert item == Obj(CoerceItem(xs[i].fields, required));
  }

  /** A list with an item that is not a dictionary comes back unchanged. */
  lemma CoerceKeepsMixedList(xs: seq<Json>, required: seq<string>)
    requires exists i :: 0 <= i < |xs| && !xs[i].Obj?
    ensures Coerce(Arr(xs), required) == Arr(xs)
  {
  }

  /**
   * With required keys, the coerced value passes `_validate` exactly when it is
   * a list of dictionaries; without required keys it always passes.
   */
  lemma {:induction false} CoerceThenValidate(obj: Json, required: seq<string>)
    ensures required == [] ==> Validate(Coerce(obj, required), required) == Pass
    ensures required != [] ==>
              (Validate(Coerce(obj, required), required) == Pass
               <==> Coerce(obj, required).Arr? && AllDicts(Coerce(obj, required).items))
  {
    var o := Reshape(obj, required);
    var r := Coerce(obj, required);
    if required != [] {
      if o.Arr? && AllDicts(o.items) {
        var ys := CoerceItems(o.items, required);
        forall j | 0 <= j < |ys| ensures HasAll(ys[j], required) {
          assert ys[j] == Obj(CoerceItem(o.items[j].fields, required));
        }
      } else if o.Arr? {
        var j :| 0 <= j < |o.items| && !o.items[j].Obj?;
        assert !HasAll(r.items[j], required);
      } else if o.Obj? {
        match obj {
          case Obj(m) =>
            assert Wrapper(m).None?;
            assert !HasAll(obj, required);
        }
      }
    }
  }

  /**
   * `"notes"` is not required on its own: either it is not required or `"note"`
   * is required too. Coercion is idempotent exactly in this setting (see
   * CoerceNotIdempotentWhenNotesRequired).
   */
  predicate NotesSafe(required: seq<string>)
  {
    "notes" in required ==> "note" in required
  }

  lemma CoerceItemIdempotent(m: map<string, Json>, required: seq<string>)
    requires NotesSafe(required)
    ensures CoerceItem(CoerceItem(m, required), required) == CoerceItem(m, required)
  {
    var m1 := CoerceItem(m, required);
    if required == [] {
      assert RenameNotes(m1) == m1;
    } else {
      assert RenameNotes(m1) == m1;
      assert Project(m1, required) == m1;
    }
  }

  /** Coercing a second time changes nothing, as long as `"notes"` is not required without `"note"`. */
  lemma CoerceIdempotent(obj: Json, required: seq<string>)
    requires NotesSafe(required)
    ensures Coerce(Coerce(obj, required), required) == Coerce(obj, required)
  {
    var o := Reshape(obj, required);
    if o.Arr? {
      if AllDicts(o.items) {
        var ys := CoerceItems(o.items, required);
        assert Reshape(Arr(ys), required) == Arr(ys);
        assert AllDicts(ys);
        forall j | 0 <= j < |ys| ensures CoerceItem(ys[j].fields, required) == ys[j].fields {
          CoerceItemIdempotent(o.items[j].fields, required);
        }
        assert CoerceItems(ys, required) == ys;
      } else {
        assert Reshape(o, required) == o;
      }
    } else {
      assert o == obj;
    }
  }

  /**
   * Without that proviso coercion is not idempotent: with `["notes"]` required,
   * an item carrying both `note` and `notes` keeps its `notes` on the first pass
   * and loses it on the second, where `notes` is renamed away and refilled with `""`.
   */
  lemma CoerceNotIdempotentWhenNotesRequired()
    ensures Coerce(Coerce(NotesExample(), ["notes"]), ["notes"]) != Coerce(NotesExample(), ["notes"])
  {
    NotesKeptOnFirstPass();
    NotesBlankedOnSecondPass();
    var kept, blanked := map["notes" := Str("x")], map["notes" := Str("")];
    assert kept["notes"] != blanked["notes"];
    assert Arr([Obj(kept)]).items[0] != Arr([Obj(blanked)]).items[0];
  }

  /** A list holding one item with both `note` and `notes`. */
  function NotesExample(): Json
  {
    Arr([Obj(map["note" := Int(1), "notes" := Str("x")])])
  }

  lemma NotesKeptOnFirstPass()
    ensures Coerce(NotesExample(), ["notes"]) == Arr([Obj(map["notes" := Str("x")])])
  {
    CoerceSingleton(map["note" := Int(1), "notes" := Str("x")], ["notes"]);
    assert CoerceItem(map["note" := Int(1), "notes" := Str("x")], ["notes"]) == map["notes" := Str("x")];
  }

  /** With `["notes"]` required, a `notes` value is renamed to `note` and then dropped, leaving `""`. */
  lemma NotesBlankedOnSecondPass()
    ensures Coerce(Arr([Obj(map["notes" := Str("x")])]), ["notes"]) == Arr([Obj(map["notes" := Str("")])])
  {
    CoerceSingleton(map["notes" := Str("x")], ["notes"]);
    assert CoerceItem(map["notes" := Str("x")], ["notes"]) == map["notes" := Str("")];
  }

  /** A one-item list holding a dictionary coerces to the one-item list of the coerced item. */
  lemma CoerceSingleton(m: map<string, Json>, required: seq<string>)
    ensures Coerce(Arr([Obj(m)]), required) == Arr([Obj(CoerceItem(m, required))])
  {
    assert AllDicts([Obj(m)]);
    assert CoerceItems([Obj(m)], required) == [Obj(CoerceItem(m, required))];
  }

  /** A dictionary holding the required keys and more becomes a one-item list holding just the required keys. */
  lemma CoerceDropsExtraKeys()
    ensures Coerce(Obj(map["a" := Int(1), "b" := Int(2), "c" := Int(3)]), ["a", "b"])
            == Arr([Obj(map["a" := Int(1), "b" := Int(2)])])
  {
    var m := map["a" := Int(1), "b" := Int(2), "c" := Int(3)];
    CoercePromotesOrKeeps(m, ["a", "b"]);
    var item := CoerceItem(m, ["a", "b"]);
    assert item.Keys == {"a", "b"} && item["a"] == Int(1) && item["b"] == Int(2);
    assert item == map["a" := Int(1), "b" := Int(2)];
  }

  /** A list wrapped under `items` is unwrapped and passes the required-key check. */
  lemma CoerceUnwrapsItems()
    ensures var obj := Obj(map["items" := Arr([Obj(map["x" := Int(1)]), Obj(map["x" := Int(2)])])]);
            && Coerce(obj, ["x"]) == Arr([Obj(map["x" := Int(1)]), Obj(map["x" := Int(2)])])
            && Validate(Coerce(obj, ["x"]), ["x"]) == Pass
  {
    var xs := [Obj(map["x" := Int(1)]), Obj(map["x" := Int(2)])];
    var m := map["items" := Arr(xs)];
    CoerceUnwrapsFirstWrapper(m, ["x"], 0);
    assert CoerceItem(map["x" := Int(1)], ["x"]) == map["x" := Int(1)];
    assert CoerceItem(map["x" := Int(2)], ["x"]) == map["x" := Int(2)];
    assert CoerceItems(xs, ["x"]) == xs;
  }
}
