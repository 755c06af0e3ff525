/**
 The two address parameters the list screen keeps its filters in: `search`,
 the raw search text, and `type`, the selected type names joined with
 commas. The address is a plain map from parameter name to value.
 */
module Address {
  import opened Seqs
  import opened Text

  type Params = map<string, string>

  const SearchKey: string := "search"
  const TypeKey: string := "type"
  const TypeSeparator: char := ','

  /** Reads one parameter; an absent parameter reads as the empty string. */
  function Get(params: Params, key: string): (v: string)
    ensures key !in params ==> v == ""
    ensures key in params ==> v == params[key]
  {
    if key in params then params[key] else ""
  }

  /** A type name that survives being joined into the `type` parameter and read back. */
  predicate ValidTypeName(name: string) {
    name != "" && TypeSeparator !in name
  }

  predicate ValidTypeNames(names: seq<string>) {
    forall i :: 0 <= i < |names| ==> ValidTypeName(names[i])
  }

  predicate NonEmpty(field: string) {
    field != ""
  }

  /** Reads the `type` parameter: split on commas, empty fields dropped. The
      names are the non-empty fields, in order; a parameter with no comma is
      one name by itself. */
  function DecodeTypes(param: string): (names: seq<string>)
    ensures ValidTypeNames(names)
    ensures param == "" ==> names == []
    ensures param != "" && TypeSeparator !in param ==> names == [param]
    ensures forall i :: 0 <= i < |names| ==> names[i] in Split(param, TypeSeparator)
    ensures forall i :: 0 <= i < |Split(param, TypeSeparator)| && Split(param, TypeSeparator)[i] != "" ==>
              Split(param, TypeSeparator)[i] in names
  {
    if param == "" then []
    else
      assert TypeSeparator !in param ==> Keep(Split(param, TypeSeparator), NonEmpty) == [param] by {
        if TypeSeparator !in param {
          SplitWhole(param, TypeSeparator);
          KeepAll([param], NonEmpty);
        }
      }
      Keep(Split(param, TypeSeparator), NonEmpty)
  }

  /** Writes the `type` parameter: the names joined with commas. No names
      give the empty parameter; valid names split back into themselves. */
  function EncodeTypes(names: seq<string>): (param: string)
    ensures names == [] ==> param == ""
    ensures |names| > 0 && ValidTypeNames(names) ==> Split(param, TypeSeparator) == names
    ensures |names| > 0 && ValidTypeNames(names) ==> param != ""
  {
    assert |names| > 0 && ValidTypeNames(names) ==> Split(Join(names, TypeSeparator), TypeSeparator) == names by {
      if |names| > 0 && ValidTypeNames(names) {
        SplitJoin(names, TypeSeparator);
      }
    }
    Join(names, TypeSeparator)
  }

  /** The search text the address holds; empty when the parameter is absent. */
  function SearchTerm(params: Params): (term: string)
    ensures SearchKey !in params ==> term == ""
    ensures SearchKey in params ==> term == params[SearchKey]
  {
    Get(params, SearchKey)
  }

  /** The selected types the address holds, in the order they were selected;
      none when the parameter is absent. */
  function SelectedTypes(params: Params): (names: seq<string>)
    ensures ValidTypeNames(names)
    ensures TypeKey !in params ==> names == []
    ensures TypeKey in params ==> names == DecodeTypes(params[TypeKey])
  {
    DecodeTypes(Get(params, TypeKey))
  }

  /** The address is replaced by exactly these two parameters, so both
      filters are always restated together. */
  function Restate(search: string, typeParam: string): (params: Params)
    ensures params.Keys == {SearchKey, TypeKey}
    ensures SearchTerm(params) == search
    ensures SelectedTypes(params) == DecodeTypes(typeParam)
  {
    map[SearchKey := search, TypeKey := typeParam]
  }

  /** Round trip: valid names, joined and read back, come back unchanged and in order. */
  lemma {:induction false} DecodeEncode(names: seq<string>)
    requires ValidTypeNames(names)
    ensures DecodeTypes(EncodeTypes(names)) == names
  {
    if |names| > 0 {
      assert EncodeTypes(names) != "";
      SplitJoin(names, TypeSeparator);
      KeepAll(names, NonEmpty);
    }
  }

  /** A `type` parameter as the screen itself writes it: empty, or with no empty field. */
  predicate Canonical(param: string) {
    var fields := Split(param, TypeSeparator);
    param == "" || forall i :: 0 <= i < |fields| ==> fields[i] != ""
  }

  /** A canonical parameter is written back exactly as it was read. */
  lemma EncodeDecode(param: string)
    requires Canonical(param)
    ensures EncodeTypes(DecodeTypes(param)) == param
  {
    if param != "" {
      var fields := Split(param, TypeSeparator);
      KeepAll(fields, NonEmpty);
    }
  }

  /** Reading, writing and reading again gives what the first read gave: a
      restated `type` parameter keeps the selection it was built from. */
  lemma DecodeNormalizes(param: string)
    ensures DecodeTypes(EncodeTypes(DecodeTypes(param))) == DecodeTypes(param)
  {
    DecodeEncode(DecodeTypes(param));
  }

  /** Reading the `type` parameter is splitting and dropping empty fields,
      the empty parameter included. */
  lemma DecodeAsKeep(param: string)
    ensures DecodeTypes(param) == Keep(Split(param, TypeSeparator), NonEmpty)
  {
    if param == "" {
      KeepNone([""], NonEmpty);
    }
  }

  /** Two `type` parameters joined by a comma select the first's names
      followed by the second's. */
  lemma DecodeConcat(a: string, b: string)
    ensures DecodeTypes(a + [TypeSeparator] + b) == DecodeTypes(a) + DecodeTypes(b)
  {
    DecodeAsKeep(a);
    DecodeAsKeep(b);
    DecodeAsKeep(a + [TypeSeparator] + b);
    SplitConcat(a, b, TypeSeparator);
    KeepAppend(Split(a, TypeSeparator), Split(b, TypeSeparator), NonEmpty);
  }

  /** A parameter made only of commas selects nothing. */
  lemma OnlySeparators(param: string)
    requires forall i :: 0 <= i < |param| ==> param[i] == TypeSeparator
    ensures DecodeTypes(param) == []
  {
    DecodeAsKeep(param);
    SplitSeparatorsOnly(param, TypeSeparator);
    KeepNone(Split(param, TypeSeparator), NonEmpty);
  }
}
