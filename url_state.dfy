/** The share-URL state of the calculator (components/calculators/realestate-pro/hooks/
    useUrlState.ts): the reverse key table, the parser of the page's query parameters, the
    share-URL writer that keeps only inputs that differ from the defaults, and the URL updater
    that skips its first call. `String(number)` and `parseFloat` are the parameters `toStr` and
    `parse` (`None` standing for NaN); the page's base URL and the browser history are outside
    the model. */
module UrlState {
  import opened Types

  /** A query parameter: key and value. */
  type Param = (string, string)

  /** `Object.fromEntries` of the swapped `(field, key)` entries of a list of fields: each
      entry in turn adds its key, a later one overriding an earlier one. */
  function ReverseTable(fields: seq<InputField>): map<string, InputField>
  {
    if fields == [] then map[]
    else ReverseTable(fields[..|fields| - 1])[UrlKey(fields[|fields| - 1]) := fields[|fields| - 1]]
  }

  /** `REVERSE_URL_KEYS`: the input field of each short key. */
  const REVERSE_URL_KEYS: map<string, InputField> := ReverseTable(AllFields)

  /** The reversed table has the keys of the listed fields, and each key maps to a field
      carrying that key. */
  lemma {:induction false} ReverseTableKeys(fields: seq<InputField>)
    ensures forall f :: f in fields ==> UrlKey(f) in ReverseTable(fields)
    ensures forall k :: k in ReverseTable(fields) ==> UrlKey(ReverseTable(fields)[k]) == k
  {
    if fields != [] {
      ReverseTableKeys(fields[..|fields| - 1]);
      forall f | f in fields ensures UrlKey(f) in ReverseTable(fields) {
        if f != fields[|fields| - 1] {
          var i :| 0 <= i < |fields| && fields[i] == f;
          assert f in fields[..|fields| - 1] by { assert fields[..|fields| - 1][i] == f; }
        }
      }
    }
  }

  /** The reverse table gives back the field of every short key, and has no other keys. */
  lemma ReverseUrlKeysInvertsUrlKeys()
    ensures forall f :: UrlKey(f) in REVERSE_URL_KEYS && REVERSE_URL_KEYS[UrlKey(f)] == f
    ensures forall k :: k in REVERSE_URL_KEYS ==> UrlKey(REVERSE_URL_KEYS[k]) == k
  {
    AllFieldsListsEachFieldOnce();
    UrlKeysDistinct();
    ReverseTableKeys(AllFields);
  }

  // ---------------------------------------------------------------- parsing

  /** One `searchParams.forEach` step: a known key with a value that parses sets its field. */
  function ApplyParam(inputs: RealEstateInputs, p: Param, parse: string -> Option<real>): RealEstateInputs
  {
    if p.0 in REVERSE_URL_KEYS && parse(p.1).Some? then Set(inputs, REVERSE_URL_KEYS[p.0], parse(p.1).value)
    else inputs
  }

  /** The inputs parsed from a list of parameters: the defaults, updated by each parameter in turn. */
  function ParseParams(params: seq<Param>, parse: string -> Option<real>): RealEstateInputs
  {
    if params == [] then DEFAULT_INPUTS
    else ApplyParam(ParseParams(params[..|params| - 1], parse), params[|params| - 1], parse)
  }

  /** `initialInputs`: a copy of the defaults, updated in a loop over the parameters in order. */
  method ParseInitialInputs(searchParams: seq<Param>, parse: string -> Option<real>) returns (inputs: RealEstateInputs)
    ensures inputs == ParseParams(searchParams, parse)
  {
    inputs := DEFAULT_INPUTS;
    var i := 0;
    while i < |searchParams|
      invariant 0 <= i <= |searchParams|
      invariant inputs == ParseParams(searchParams[..i], parse)
    {
      var (key, value) := searchParams[i];
      if key in REVERSE_URL_KEYS {
        var inputKey := REVERSE_URL_KEYS[key];
        var parsed := parse(value);
        if parsed.Some? {
          inputs := Set(inputs, inputKey, parsed.value);
        }
      }
      assert searchParams[..i + 1][..i] == searchParams[..i];
      i := i + 1;
    }
    assert searchParams[..i] == searchParams;
  }

  /** The value of the last parameter under `key` whose value parses, if there is one. */
  function LastValue(params: seq<Param>, key: string, parse: string -> Option<real>): Option<real>
  {
    if params == [] then None
    else if params[|params| - 1].0 == key && parse(params[|params| - 1].1).Some? then parse(params[|params| - 1].1)
    else LastValue(params[..|params| - 1], key, parse)
  }

  /** What parsing gives each field: the last parseable value under its short key, or its
      default when there is none. So unknown keys and values that parse to NaN are ignored,
      and a later occurrence of a key overrides an earlier one. */
  lemma {:induction false} ParsedField(params: seq<Param>, parse: string -> Option<real>, f: InputField)
    ensures Get(ParseParams(params, parse), f)
            == (if LastValue(params, UrlKey(f), parse).Some? then LastValue(params, UrlKey(f), parse).value
                else Get(DEFAULT_INPUTS, f))
  {
    if params != [] {
      ParsedField(params[..|params| - 1], parse, f);
      ReverseUrlKeysInvertsUrlKeys();
    }
  }

  /** Concretely: no parameters give the defaults, and a parameter with an unknown key or a
      value that does not parse leaves the result unchanged. */
  lemma IgnoredParams(params: seq<Param>, p: Param, parse: string -> Option<real>)
    ensures ParseParams([], parse) == DEFAULT_INPUTS
    ensures p.0 !in REVERSE_URL_KEYS || parse(p.1).None? ==> ParseParams(params + [p], parse) == ParseParams(params, parse)
  {
    assert (params + [p])[..|params + [p]| - 1] == params;
  }

  // ---------------------------------------------------------------- writing

  /** The entries `URLSearchParams` holds under `key`. */
  predicate HasKey(params: seq<Param>, key: string)
  {
    exists i :: 0 <= i < |params| && params[i].0 == key
  }

  /** The parameters without those under `key`. */
  function RemoveKey(params: seq<Param>, key: string): seq<Param>
  {
    if params == [] then []
    else if params[0].0 == key then RemoveKey(params[1..], key)
    else [params[0]] + RemoveKey(params[1..], key)
  }

  /** The first entry under `key` replaced by the new value, later ones removed. */
  function ReplaceFirst(params: seq<Param>, key: string, value: string): seq<Param>
  {
    if params == [] then []
    else if params[0].0 == key then [(key, value)] + RemoveKey(params[1..], key)
    else [params[0]] + ReplaceFirst(params[1..], key, value)
  }

  /** `URLSearchParams.set`: replaces the first entry under the key and drops the others, or
      appends a new entry when there is none. */
  function SetParam(params: seq<Param>, key: string, value: string): (r: seq<Param>)
    ensures !HasKey(params, key) ==> r == params + [(key, value)]
  {
    if HasKey(params, key) then ReplaceFirst(params, key, value) else params + [(key, value)]
  }

  /** The parameters the share URL holds for a list of fields: each field whose value differs
      from its default, under its short key, in the order of the list. */
  function ShareParams(inputs: RealEstateInputs, fields: seq<InputField>, toStr: real -> string): seq<Param>
  {
    if fields == [] then []
    else
      var rest := ShareParams(inputs, fields[..|fields| - 1], toStr);
      var f := fields[|fields| - 1];
      if Get(inputs, f) != Get(DEFAULT_INPUTS, f) then rest + [(UrlKey(f), toStr(Get(inputs, f)))] else rest
  }

  /** Every share parameter is the short key of a listed field with that field's value written out. */
  lemma {:induction false} ShareParamsEntries(inputs: RealEstateInputs, fields: seq<InputField>, toStr: real -> string)
    ensures forall i :: 0 <= i < |ShareParams(inputs, fields, toStr)| ==>
              exists f :: f in fields && ShareParams(inputs, fields, toStr)[i] == (UrlKey(f), toStr(Get(inputs, f)))
  {
    if fields != [] {
      var init := fields[..|fields| - 1];
      var g := fields[|fields| - 1];
      ShareParamsEntries(inputs, init, toStr);
      var rest := ShareParams(inputs, init, toStr);
      var r := ShareParams(inputs, fields, toStr);
      forall i | 0 <= i < |r| ensures exists f :: f in fields && r[i] == (UrlKey(f), toStr(Get(inputs, f))) {
        if i < |rest| {
          var f :| f in init && rest[i] == (UrlKey(f), toStr(Get(inputs, f)));
          assert r[i] == rest[i];
          var j :| 0 <= j < |init| && init[j] == f;
          assert fields[j] == f;
          assert f in fields && r[i] == (UrlKey(f), toStr(Get(inputs, f)));
        } else {
          assert g in fields && r[i] == (UrlKey(g), toStr(Get(inputs, g)));
        }
      }
    } else {
      assert ShareParams(inputs, fields, toStr) == [];
    }
  }

  /** `params.toString()` without percent-encoding: `key=value` entries joined by `&`. */
  function QueryString(params: seq<Param>): string
  {
    if params == [] then "" else Join(EntryStrings(params), '&')
  }

  function EntryStrings(params: seq<Param>): (r: seq<string>)
    ensures |r| == |params|
    ensures forall i :: 0 <= i < |params| ==> r[i] == params[i].0 + "=" + params[i].1
  {
    if params == [] then [] else [params[0].0 + "=" + params[0].1] + EntryStrings(params[1..])
  }

  /** Strings joined by a separator. */
  function Join(parts: seq<string>, sep: char): string
    requires |parts| > 0
  {
    if |parts| == 1 then parts[0] else parts[0] + [sep] + Join(parts[1..], sep)
  }

  /** The share URL: the base URL, followed by `?` and the query when there is one. */
  function ShareUrl(inputs: RealEstateInputs, baseUrl: string, toStr: real -> string): string
  {
    var queryString := QueryString(ShareParams(inputs, AllFields, toStr));
    if queryString != "" then baseUrl + "?" + queryString else baseUrl
  }

  /** The keys of the share parameters are the short keys of the fields they were made for. */
  lemma ShareParamsFresh(inputs: RealEstateInputs, i: nat, toStr: real -> string)
    requires i < |AllFields|
    ensures !HasKey(ShareParams(inputs, AllFields[..i], toStr), UrlKey(AllFields[i]))
  {
    ShareParamsEntries(inputs, AllFields[..i], toStr);
    AllFieldsListsEachFieldOnce();
    UrlKeysDistinct();
  }

  /** `generateShareUrl`: a loop over the fields setting each non-default one under its short
      key, then the base URL with the query appended, or the bare base URL when no field
      differs from its default. */
  method GenerateShareUrl(inputs: RealEstateInputs, baseUrl: string, toStr: real -> string) returns (url: string)
    ensures url == ShareUrl(inputs, baseUrl, toStr)
  {
    var params: seq<Param> := [];
    var i := 0;
    while i < |AllFields|
      invariant 0 <= i <= |AllFields|
      invariant params == ShareParams(inputs, AllFields[..i], toStr)
    {
      var key := AllFields[i];
      ShareParamsFresh(inputs, i, toStr);
      assert AllFields[..i + 1][..i] == AllFields[..i];
      if Get(inputs, key) != Get(DEFAULT_INPUTS, key) {
        params := SetParam(params, UrlKey(key), toStr(Get(inputs, key)));
      }
      i := i + 1;
    }
    assert AllFields[..i] == AllFields;
    var queryString := QueryString(params);
    if queryString != "" {
      url := baseUrl + "?" + queryString;
    } else {
      url := baseUrl;
    }
  }

  // ---------------------------------------------------------------- round trip

  /** No field is listed twice. */
  predicate Distinct(fields: seq<InputField>)
  {
    forall i, j :: 0 <= i < j < |fields| ==> fields[i] != fields[j]
  }

  /** Under a field's short key the share parameters hold its value exactly when it differs
      from the default. */
  lemma {:induction false} ShareParamsLastValue(inputs: RealEstateInputs, fields: seq<InputField>, toStr: real -> string,
                                                parse: string -> Option<real>, f: InputField)
    requires Distinct(fields)
    requires forall v :: parse(toStr(v)) == Some(v)
    ensures LastValue(ShareParams(inputs, fields, toStr), UrlKey(f), parse)
            == if f in fields && Get(inputs, f) != Get(DEFAULT_INPUTS, f) then Some(Get(inputs, f)) else None
  {
    if fields != [] {
      var init := fields[..|fields| - 1];
      var g := fields[|fields| - 1];
      assert fields == init + [g];
      assert Distinct(init) by {
        forall i, j | 0 <= i < j < |init| ensures init[i] != init[j] {
          assert init[i] == fields[i] && init[j] == fields[j];
        }
      }
      ShareParamsLastValue(inputs, init, toStr, parse, f);
      var rest := ShareParams(inputs, init, toStr);
      if f == g {
        forall i | 0 <= i < |init| ensures init[i] != f {
          assert init[i] == fields[i];
        }
      }
      if Get(inputs, g) != Get(DEFAULT_INPUTS, g) {
        var r := rest + [(UrlKey(g), toStr(Get(inputs, g)))];
        assert ShareParams(inputs, fields, toStr) == r;
        assert r[..|r| - 1] == rest;
        if f != g {
          UrlKeysDistinct();
          assert LastValue(r, UrlKey(f), parse) == LastValue(rest, UrlKey(f), parse);
        }
      } else {
        assert ShareParams(inputs, fields, toStr) == rest;
      }
    }
  }

  /** Parsing the share parameters of some inputs gives those inputs back, when `parseFloat`
      reads back every number `String` writes. */
  lemma ShareParamsRoundTrip(inputs: RealEstateInputs, toStr: real -> string, parse: string -> Option<real>)
    requires forall v :: parse(toStr(v)) == Some(v)
    ensures ParseParams(ShareParams(inputs, AllFields, toStr), parse) == inputs
  {
    AllFieldsListsEachFieldOnce();
    var parsed := ParseParams(ShareParams(inputs, AllFields, toStr), parse);
    forall f ensures Get(parsed, f) == Get(inputs, f) {
      ParsedField(ShareParams(inputs, AllFields, toStr), parse, f);
      ShareParamsLastValue(inputs, AllFields, toStr, parse, f);
    }
    InputsExtensional(parsed, inputs);
  }

  /** The first position of `c` in `s`. */
  function IndexOf(s: string, c: char): (i: nat)
    requires c in s
    ensures i < |s| && s[i] == c && c !in s[..i]
  {
    if s[0] == c then 0 else 1 + IndexOf(s[1..], c)
  }

  /** `s` cut at every `c`. */
  function SplitOn(s: string, c: char): (parts: seq<string>)
    ensures |parts| > 0
    decreases |s|
  {
    if c in s then [s[..IndexOf(s, c)]] + SplitOn(s[IndexOf(s, c) + 1..], c) else [s]
  }

  /** A query segment as a parameter: cut at its first `=`, or with an empty value. */
  function PairOf(segment: string): Param
  {
    if '=' in segment then (segment[..IndexOf(segment, '=')], segment[IndexOf(segment, '=') + 1..])
    else (segment, "")
  }

  /** The parameters of a list of segments, empty segments skipped. */
  function ParseSegments(segments: seq<string>): seq<Param>
  {
    if segments == [] then []
    else (if segments[0] == "" then [] else [PairOf(segments[0])]) + ParseSegments(segments[1..])
  }

  /** The page's search parameters: the part of the URL after its first `?`, cut at `&`, each
      segment cut at its first `=`. Percent-decoding is not modelled. */
  function SearchParams(url: string): seq<Param>
  {
    if '?' in url then ParseSegments(SplitOn(url[IndexOf(url, '?') + 1..], '&')) else []
  }

  /** The first `c` of `a + [c] + b` is the one after `a` when `a` has none. */
  lemma {:induction false} IndexOfAfter(a: string, c: char, b: string)
    requires c !in a
    ensures c in a + [c] + b && IndexOf(a + [c] + b, c) == |a|
  {
    assert (a + [c] + b)[|a|] == c;
    if a != [] {
      assert (a + [c] + b)[1..] == a[1..] + [c] + b;
      IndexOfAfter(a[1..], c, b);
    }
  }

  /** Cutting a string at its first separator, when the part before it has none. */
  lemma SplitAfter(a: string, c: char, b: string)
    requires c !in a
    ensures SplitOn(a + [c] + b, c) == [a] + SplitOn(b, c)
  {
    var s := a + [c] + b;
    IndexOfAfter(a, c, b);
    assert s[..|a|] == a;
    assert s[|a| + 1..] == b;
  }

  /** Splitting parts joined by a separator they do not contain gives the parts back. */
  lemma {:induction false} SplitJoin(parts: seq<string>, c: char)
    requires |parts| > 0 && forall i :: 0 <= i < |parts| ==> c !in parts[i]
    ensures SplitOn(Join(parts, c), c) == parts
  {
    if |parts| > 1 {
      SplitAfter(parts[0], c, Join(parts[1..], c));
      SplitJoin(parts[1..], c);
      assert parts == [parts[0]] + parts[1..];
    }
  }

  /** An entry `key=value` with no `=` in the key reads back as that parameter. */
  lemma PairOfEntry(key: string, value: string)
    requires '=' !in key
    ensures PairOf(key + "=" + value) == (key, value)
  {
    IndexOfAfter(key, '=', value);
    var s := key + "=" + value;
    assert s == key + ['='] + value;
    assert s[..|key|] == key;
    assert s[|key| + 1..] == value;
  }

  /** The entries of parameters with `=`-free keys read back as those parameters. */
  lemma {:induction false} ParseEntries(params: seq<Param>)
    requires forall i :: 0 <= i < |params| ==> '=' !in params[i].0
    ensures ParseSegments(EntryStrings(params)) == params
  {
    if params != [] {
      var e := EntryStrings(params);
      assert e[1..] == EntryStrings(params[1..]);
      PairOfEntry(params[0].0, params[0].1);
      assert e[0] != "" by { assert |e[0]| > |params[0].0|; }
      ParseEntries(params[1..]);
      assert params == [params[0]] + params[1..];
    }
  }

  /** No key contains `=` or `&` and no value contains `&`. */
  predicate PlainParams(params: seq<Param>)
  {
    forall i :: 0 <= i < |params| ==> '=' !in params[i].0 && '&' !in params[i].0 && '&' !in params[i].1
  }

  /** A query string reads back as its parameters, when no key contains `=` or `&` and no
      value contains `&`. */
  lemma QueryRoundTrip(params: seq<Param>)
    requires PlainParams(params)
    ensures ParseSegments(SplitOn(QueryString(params), '&')) == params
  {
    if params != [] {
      var e := EntryStrings(params);
      forall i | 0 <= i < |e| ensures '&' !in e[i] {
        assert e[i] == params[i].0 + "=" + params[i].1;
      }
      SplitJoin(e, '&');
      ParseEntries(params);
    } else {
      assert SplitOn("", '&') == [""];
    }
  }

  /** The short keys contain neither `=` nor `&` nor `?`. */
  lemma UrlKeysArePlain(f: InputField)
    ensures '=' !in UrlKey(f) && '&' !in UrlKey(f)
  {
  }

  /** The address `base?query` has the query's parameters, when the base has no `?`. */
  lemma SearchParamsOfUrl(baseUrl: string, query: string)
    requires '?' !in baseUrl
    ensures SearchParams(baseUrl + "?" + query) == ParseSegments(SplitOn(query, '&'))
  {
    IndexOfAfter(baseUrl, '?', query);
    assert baseUrl + "?" + query == baseUrl + ['?'] + query;
    assert (baseUrl + ['?'] + query)[|baseUrl| + 1..] == query;
  }

  /** Only no parameters make the empty query string. */
  lemma EmptyQuery(params: seq<Param>)
    ensures QueryString(params) == "" <==> params == []
  {
    if params != [] {
      var e := EntryStrings(params);
      if |e| > 1 {
        assert Join(e, '&') == e[0] + ['&'] + Join(e[1..], '&');
      }
      assert |QueryString(params)| >= |e[0]| > 0;
    }
  }

  /** The share parameters have plain keys, and values without `&` when `String` writes none. */
  lemma ShareParamsArePlain(inputs: RealEstateInputs, toStr: real -> string)
    requires forall v :: '&' !in toStr(v)
    ensures PlainParams(ShareParams(inputs, AllFields, toStr))
  {
    var params := ShareParams(inputs, AllFields, toStr);
    ShareParamsEntries(inputs, AllFields, toStr);
    forall i | 0 <= i < |params| ensures '=' !in params[i].0 && '&' !in params[i].0 && '&' !in params[i].1 {
      var f :| f in AllFields && params[i] == (UrlKey(f), toStr(Get(inputs, f)));
      UrlKeysArePlain(f);
    }
  }

  /** The page loaded at the share URL sees exactly the share parameters. */
  lemma ShareSearchParams(inputs: RealEstateInputs, baseUrl: string, toStr: real -> string)
    requires '?' !in baseUrl
    requires forall v :: '&' !in toStr(v)
    ensures SearchParams(ShareUrl(inputs, baseUrl, toStr)) == ShareParams(inputs, AllFields, toStr)
  {
    var params := ShareParams(inputs, AllFields, toStr);
    EmptyQuery(params);
    if params != [] {
      ShareParamsArePlain(inputs, toStr);
      QueryRoundTrip(params);
      SearchParamsOfUrl(baseUrl, QueryString(params));
    }
  }

  /** The share URL, loaded as the page's address, parses back to the inputs it was made for:
      the base URL (origin and path) has no `?`, `String` writes no `&`, and `parseFloat` reads
      back what `String` writes. */
  lemma ShareUrlRoundTrip(inputs: RealEstateInputs, baseUrl: string, toStr: real -> string, parse: string -> Option<real>)
    requires '?' !in baseUrl
    requires forall v :: parse(toStr(v)) == Some(v) && '&' !in toStr(v)
    ensures ParseParams(SearchParams(ShareUrl(inputs, baseUrl, toStr)), parse) == inputs
  {
    ShareSearchParams(inputs, baseUrl, toStr);
    ShareParamsRoundTrip(inputs, toStr, parse);
  }

  /** The share URL is the bare base URL exactly when every input has its default value. */
  lemma BareShareUrl(inputs: RealEstateInputs, baseUrl: string, toStr: real -> string)
    ensures ShareUrl(inputs, baseUrl, toStr) == baseUrl <==> inputs == DEFAULT_INPUTS
  {
    var params := ShareParams(inputs, AllFields, toStr);
    EmptyQuery(params);
    if inputs == DEFAULT_INPUTS {
      NoShareParamsForDefaults(AllFields, toStr);
    } else {
      if params == [] {
        NoParamsOnlyForDefaults(inputs, toStr);
      }
      assert |baseUrl + "?" + QueryString(params)| > |baseUrl|;
    }
  }

  /** Inputs without share parameters are the defaults. */
  lemma NoParamsOnlyForDefaults(inputs: RealEstateInputs, toStr: real -> string)
    requires ShareParams(inputs, AllFields, toStr) == []
    ensures inputs == DEFAULT_INPUTS
  {
    AllFieldsListsEachFieldOnce();
    forall f ensures Get(inputs, f) == Get(DEFAULT_INPUTS, f) {
      if Get(inputs, f) != Get(DEFAULT_INPUTS, f) {
        ParamForChangedField(inputs, AllFields, toStr, f);
      }
    }
    InputsExtensional(inputs, DEFAULT_INPUTS);
  }

  /** The defaults have no share parameters. */
  lemma {:induction false} NoShareParamsForDefaults(fields: seq<InputField>, toStr: real -> string)
    ensures ShareParams(DEFAULT_INPUTS, fields, toStr) == []
  {
    if fields != [] {
      NoShareParamsForDefaults(fields[..|fields| - 1], toStr);
    }
  }

  /** A listed field that differs from its default gives a share parameter. */
  lemma {:induction false} ParamForChangedField(inputs: RealEstateInputs, fields: seq<InputField>, toStr: real -> string, f: InputField)
    requires f in fields && Get(inputs, f) != Get(DEFAULT_INPUTS, f)
    ensures ShareParams(inputs, fields, toStr) != []
  {
    var init := fields[..|fields| - 1];
    if f != fields[|fields| - 1] {
      var i :| 0 <= i < |fields| && fields[i] == f;
      assert init[i] == f;
      ParamForChangedField(inputs, init, toStr, f);
    }
  }

  // ---------------------------------------------------------------- updating the address

  /** The hook's mutable state: the `isInitialMount` flag and the address the browser shows,
      which `history.replaceState` overwrites. */
  class UrlSync {
    var isInitialMount: bool
    var address: string

    /** A freshly mounted hook on the page's current address. */
    constructor (address0: string)
      ensures isInitialMount && address == address0
    {
      isInitialMount := true;
      address := address0;
    }

    /** `updateUrl`: the first call (the mount) only clears the flag; every later call replaces
        the address with the share URL of the inputs. */
    method UpdateUrl(inputs: RealEstateInputs, baseUrl: string, toStr: real -> string)
      modifies this
      ensures !isInitialMount
      ensures old(isInitialMount) ==> address == old(address)
      ensures !old(isInitialMount) ==> address == ShareUrl(inputs, baseUrl, toStr)
    {
      if isInitialMount {
        isInitialMount := false;
        return;
      }
      var url := GenerateShareUrl(inputs, baseUrl, toStr);
      address := url;
    }
  }

  /** After the mount and any later update, reloading the page at its address gives back the
      inputs of the last update. */
  method UpdateThenReload(inputs0: RealEstateInputs, inputs: RealEstateInputs, baseUrl: string,
                          toStr: real -> string, parse: string -> Option<real>) returns (reloaded: RealEstateInputs)
    requires '?' !in baseUrl
    requires forall v :: parse(toStr(v)) == Some(v) && '&' !in toStr(v)
    ensures reloaded == inputs
  {
    var sync := new UrlSync(baseUrl);
    sync.UpdateUrl(inputs0, baseUrl, toStr);
    sync.UpdateUrl(inputs, baseUrl, toStr);
    ShareUrlRoundTrip(inputs, baseUrl, toStr, parse);
    reloaded := ParseInitialInputs(SearchParams(sync.address), parse);
  }
}
