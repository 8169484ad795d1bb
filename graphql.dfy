/**
 * Turning a parsed GraphQL query document into the options of one
 * invocation (`extractExecuteOptions`): the document must hold exactly one
 * query or mutation selecting exactly one field; the field's name is the
 * method, its arguments (with variables substituted) are the input, and
 * its sub-selection is the shape of the wanted result.
 *
 * The document arrives already parsed: the AST below covers the node kinds
 * the extraction looks at.
 */
module GraphQL {
  import opened Wrappers
  import opened Records
  import opened Json

  /** The value nodes of the AST; `UnknownValue` is a node of a kind no value node has. */
  datatype ValueNode =
    | Variable(name: string)
    | IntValue(raw: string)
    | FloatValue(raw: string)
    | StringValue(s: string)
    | BooleanValue(b: bool)
    | EnumValue(raw: string)
    | NullValue
    | ListValue(values: seq<ValueNode>)
    | ObjectValue(fields: seq<NameValue>)
    | UnknownValue(kind: string)

  /** An object field or a field argument: a name and a value node. */
  datatype NameValue = NameValue(name: string, value: ValueNode)

  /** A `{ ... }` block. */
  datatype SelectionSet = SelectionSet(selections: seq<Selection>)

  datatype Selection =
    | Field(name: string, arguments: Option<seq<NameValue>>, selectionSet: Option<SelectionSet>)
    | FragmentSpread(fragment: string)
    | InlineFragment(selections: seq<Selection>)

  datatype OperationType = Query | Mutation | Subscription

  datatype Definition =
    | OperationDefinition(operation: OperationType, selectionSet: SelectionSet)
    | OtherDefinition(kind: string)

  datatype Document = Document(definitions: seq<Definition>)

  /** `{ module, method, input, results }` */
  datatype ExecuteOptions = ExecuteOptions(moduleName: string, methodName: string, input: Record<Json>, results: Record<Json>)

  function SelectionKind(s: Selection): string
  {
    match s
    case Field(_, _, _) => "Field"
    case FragmentSpread(_) => "FragmentSpread"
    case InlineFragment(_) => "InlineFragment"
  }

  function OperationName(op: OperationType): string
  {
    match op
    case Query => "query"
    case Mutation => "mutation"
    case Subscription => "subscription"
  }

  const EMPTY_DOCUMENT := "Empty query document found."
  const MULTIPLE_DEFINITIONS := "Multiple simultaneous queries not yet supported."
  const SUBSCRIPTION := "Subscription queries are not yet supported."
  const EMPTY_SELECTION_SET := "Empty selection set found. Please include the name of a method you'd like to query."
  const MULTIPLE_SELECTIONS := "Multiple simultaneous queries not yet supported"
  /** The message of an unknown value node, whose template prints the node as `[object Object]`. */
  const UNSUPPORTED_VALUE := "Unsupported value node: [object Object]"
  /** Written as a plain string, so the placeholder is not filled in. */
  const UNSUPPORTED_RESULT_SELECTION := "Unsupported result selection type found: ${result.kind}"

  function UnrecognizedDefinition(kind: string): string
  {
    "Unrecognized root level definition type: " + kind + "\nPlease use a 'query' or 'mutation' operations."
  }

  function UnsupportedSelection(kind: string): string
  {
    "Unsupported selection type found: " + kind + "\nPlease query a method."
  }

  /** `extractValue`: the JavaScript value of a value node. */
  function ValueOf(node: ValueNode, variables: Record<Json>): Result<Json, string>
    decreases node, 1
  {
    match node
    case Variable(name) => Ok(if Get(variables, name).Some? then Get(variables, name).value else Undefined)
    case IntValue(raw) => Ok(Str(raw))
    case FloatValue(raw) => Ok(Str(raw))
    case StringValue(s) => Ok(Str(s))
    case BooleanValue(b) => Ok(Bool(b))
    case EnumValue(raw) => Ok(Str(raw))
    case NullValue => Ok(Null)
    case ListValue(values) =>
      var items := ValuesInto([], values, variables);
      if items.Err? then Err(items.error) else Ok(Arr(items.value))
    case ObjectValue(fields) =>
      var record := FieldsInto([], fields, variables);
      if record.Err? then Err(record.error) else Ok(Obj(record.value))
    case UnknownValue(_) => Err(UNSUPPORTED_VALUE)
  }

  /** The values of `values`, in order, after `acc`; the first failure is the result. */
  function ValuesInto(acc: seq<Json>, values: seq<ValueNode>, variables: Record<Json>): Result<seq<Json>, string>
    decreases values, 0
  {
    if values == [] then Ok(acc)
    else
      var v := ValueOf(values[0], variables);
      if v.Err? then Err(v.error) else ValuesInto(acc + [v.value], values[1..], variables)
  }

  /** `result[name] = extractValue(value)` for each pair in order, starting from `acc`. */
  function FieldsInto(acc: Record<Json>, fields: seq<NameValue>, variables: Record<Json>): Result<Record<Json>, string>
    decreases fields, 0
  {
    if fields == [] then Ok(acc)
    else
      var v := ValueOf(fields[0].value, variables);
      if v.Err? then Err(v.error) else FieldsInto(Put(acc, fields[0].name, v.value), fields[1..], variables)
  }

  /** What `extractSelections` stores for one selection: `true` for a leaf field, the sub-selection's record otherwise. */
  function SelectionValue(s: Selection): (r: Result<Json, string>)
    ensures r.Ok? ==> s.Field?
    decreases s, 1
  {
    match s
    case Field(_, _, None) => Ok(Bool(true))
    case Field(_, _, Some(selectionSet)) =>
      var sub := SelectionsInto([], selectionSet.selections);
      if sub.Err? then Err(sub.error) else Ok(Obj(sub.value))
    case _ => Err(UNSUPPORTED_RESULT_SELECTION)
  }

  /** `extractSelections`: each field of the set, in order, stored under its name, starting from `acc`. */
  function SelectionsInto(acc: Record<Json>, selections: seq<Selection>): Result<Record<Json>, string>
    decreases selections, 0
  {
    if selections == [] then Ok(acc)
    else
      var v := SelectionValue(selections[0]);
      if v.Err? then Err(v.error) else SelectionsInto(Put(acc, selections[0].name, v.value), selections[1..])
  }

  /** `extractExecuteOptions` */
  function ExecuteOptionsOf(doc: Document, variables: Record<Json>): (r: Result<ExecuteOptions, string>)
    ensures |doc.definitions| == 0 ==> r == Err(EMPTY_DOCUMENT)
    ensures |doc.definitions| > 1 ==> r == Err(MULTIPLE_DEFINITIONS)
  {
    if |doc.definitions| == 0 then Err(EMPTY_DOCUMENT)
    else if |doc.definitions| > 1 then Err(MULTIPLE_DEFINITIONS)
    else
      match doc.definitions[0]
      case OtherDefinition(kind) => Err(UnrecognizedDefinition(kind))
      case OperationDefinition(op, selectionSet) =>
        var selections := selectionSet.selections;
        if op == Subscription then Err(SUBSCRIPTION)
        else if |selections| == 0 then Err(EMPTY_SELECTION_SET)
        else if |selections| > 1 then Err(MULTIPLE_SELECTIONS)
        else if !selections[0].Field? then Err(UnsupportedSelection(SelectionKind(selections[0])))
        else
          var field := selections[0];
          var args := if field.arguments.Some? then FieldsInto([], field.arguments.value, variables) else Ok([]);
          if args.Err? then Err(args.error)
          else
            var results := if field.selectionSet.Some? then SelectionsInto([], field.selectionSet.value.selections) else Ok([]);
            if results.Err? then Err(results.error)
            else Ok(ExecuteOptions(OperationName(op), field.name, args.value, results.value))
  }

  /** Every named value of `fields` has a value. */
  predicate ValuesOk(fields: seq<NameValue>, variables: Record<Json>)
  {
    forall i :: 0 <= i < |fields| ==> ValueOf(fields[i].value, variables).Ok?
  }

  /** The `(name, value)` pairs of fields that all have values, in order. */
  function FieldPairs(fields: seq<NameValue>, variables: Record<Json>): (pairs: seq<(string, Json)>)
    requires ValuesOk(fields, variables)
    ensures |pairs| == |fields|
  {
    seq(|fields|, i requires 0 <= i < |fields| => (fields[i].name, ValueOf(fields[i].value, variables).value))
  }

  lemma {:induction false} FromPairsSnoc(done: seq<(string, Json)>, p: (string, Json))
    ensures FromPairs(done + [p]) == Put(FromPairs(done), p.0, p.1)
  {
    assert (done + [p])[..|done|] == done;
  }

  /** A list value has a value exactly when each element does; then it holds their values, in order. */
  lemma {:induction false} ValuesIntoElementwise(acc: seq<Json>, values: seq<ValueNode>, variables: Record<Json>)
    ensures ValuesInto(acc, values, variables).Ok? <==> forall i :: 0 <= i < |values| ==> ValueOf(values[i], variables).Ok?
    ensures ValuesInto(acc, values, variables).Ok? ==>
      var r := ValuesInto(acc, values, variables).value;
      |r| == |acc| + |values| && r[..|acc|] == acc &&
      forall i :: 0 <= i < |values| ==> r[|acc| + i] == ValueOf(values[i], variables).value
    decreases values
  {
    if values != [] {
      var v := ValueOf(values[0], variables);
      if v.Ok? {
        var acc' := acc + [v.value];
        ValuesIntoElementwise(acc', values[1..], variables);
        if ValuesInto(acc, values, variables).Ok? {
          var r := ValuesInto(acc, values, variables).value;
          assert r[..|acc|] == r[..|acc'|][..|acc|];
          forall i | 0 <= i < |values|
            ensures r[|acc| + i] == ValueOf(values[i], variables).value
          {
            if i > 0 {
              assert values[1..][i - 1] == values[i];
              assert r[|acc'| + (i - 1)] == ValueOf(values[1..][i - 1], variables).value;
            } else {
              assert r[..|acc'|][|acc|] == acc'[|acc|];
            }
          }
        } else {
          var j :| 0 <= j < |values[1..]| && !ValueOf(values[1..][j], variables).Ok?;
          assert values[1..][j] == values[j + 1];
        }
      }
    }
  }

  lemma {:induction false} ValuesOkCons(fields: seq<NameValue>, variables: Record<Json>)
    requires fields != []
    ensures ValuesOk(fields, variables) <==> ValueOf(fields[0].value, variables).Ok? && ValuesOk(fields[1..], variables)
  {
    if ValueOf(fields[0].value, variables).Ok? && ValuesOk(fields[1..], variables) {
      forall i | 0 < i < |fields| ensures ValueOf(fields[i].value, variables).Ok? {
        assert fields[1..][i - 1] == fields[i];
      }
    }
    if ValuesOk(fields, variables) {
      forall i | 0 <= i < |fields[1..]| ensures ValueOf(fields[1..][i].value, variables).Ok? {
        assert fields[1..][i] == fields[i + 1];
      }
    }
  }

  lemma {:induction false} FieldPairsCons(fields: seq<NameValue>, variables: Record<Json>)
    requires fields != [] && ValuesOk(fields, variables)
    ensures ValuesOk(fields[1..], variables)
    ensures FieldPairs(fields, variables) ==
      [(fields[0].name, ValueOf(fields[0].value, variables).value)] + FieldPairs(fields[1..], variables)
  {
    ValuesOkCons(fields, variables);
  }

  /** Assigning the fields in order succeeds exactly when each field has a value. */
  lemma {:induction false} FieldsIntoOk(acc: Record<Json>, fields: seq<NameValue>, variables: Record<Json>)
    ensures FieldsInto(acc, fields, variables).Ok? <==> ValuesOk(fields, variables)
    decreases fields
  {
    if fields != [] {
      ValuesOkCons(fields, variables);
      var v := ValueOf(fields[0].value, variables);
      if v.Ok? {
        FieldsIntoOk(Put(acc, fields[0].name, v.value), fields[1..], variables);
      }
    }
  }

  /** Assigning the fields in order leaves the record the pairs fold into. */
  lemma {:induction false} FieldsIntoPairs(done: seq<(string, Json)>, fields: seq<NameValue>, variables: Record<Json>)
    requires ValuesOk(fields, variables)
    ensures FieldsInto(FromPairs(done), fields, variables) == Ok(FromPairs(done + FieldPairs(fields, variables)))
    decreases fields
  {
    if fields == [] {
      assert done + FieldPairs(fields, variables) == done;
    } else {
      FieldPairsCons(fields, variables);
      var p := (fields[0].name, ValueOf(fields[0].value, variables).value);
      FromPairsSnoc(done, p);
      FieldsIntoPairs(done + [p], fields[1..], variables);
      assert done + [p] + FieldPairs(fields[1..], variables) == done + FieldPairs(fields, variables);
    }
  }

  /**
   * An object value has a value exactly when each field does; then it is the
   * record of the fields' names in first-appearance order, each holding the
   * value of the LAST field of that name.
   */
  lemma {:induction false} ObjectValueLastWins(fields: seq<NameValue>, variables: Record<Json>, k: string)
    ensures ValueOf(ObjectValue(fields), variables).Ok? <==> ValuesOk(fields, variables)
    ensures ValuesOk(fields, variables) ==>
      var record := ValueOf(ObjectValue(fields), variables).value.fields;
      DistinctKeys(record) && Get(record, k) == LastValue(FieldPairs(fields, variables), k)
  {
    FieldsIntoOk([], fields, variables);
    assert FromPairs<Json>([]) == [];
    if ValuesOk(fields, variables) {
      FieldsIntoPairs([], fields, variables);
      assert [] + FieldPairs(fields, variables) == FieldPairs(fields, variables);
      GetFromPairs(FieldPairs(fields, variables), k);
      FromPairsDistinct(FieldPairs(fields, variables));
    }
  }

  /** A selection yields a value exactly when it is a field and so is every selection below it. */
  ghost predicate AllFields(s: Selection)
    decreases s, 1
  {
    s.Field? && (s.selectionSet.Some? ==> AllFieldsIn(s.selectionSet.value.selections))
  }

  ghost predicate AllFieldsIn(ss: seq<Selection>)
    decreases ss, 0
  {
    ss != [] ==> AllFields(ss[0]) && AllFieldsIn(ss[1..])
  }

  lemma {:induction false} SelectionValueOk(s: Selection)
    ensures SelectionValue(s).Ok? <==> AllFields(s)
    decreases s, 1
  {
    match s
    case Field(_, _, Some(selectionSet)) => SelectionsIntoOk([], selectionSet.selections);
    case _ =>
  }

  lemma {:induction false} SelectionsIntoOk(acc: Record<Json>, ss: seq<Selection>)
    ensures SelectionsInto(acc, ss).Ok? <==> AllFieldsIn(ss)
    decreases ss, 0
  {
    if ss != [] {
      SelectionValueOk(ss[0]);
      if SelectionValue(ss[0]).Ok? {
        SelectionsIntoOk(Put(acc, ss[0].name, SelectionValue(ss[0]).value), ss[1..]);
      }
    }
  }

  /** The `(name, value)` pairs `extractSelections` assigns, in order. */
  ghost function SelectionPairs(ss: seq<Selection>): (pairs: seq<(string, Json)>)
    requires AllFieldsIn(ss)
    ensures |pairs| == |ss|
  {
    SelectionsOkEach(ss);
    seq(|ss|, i requires 0 <= i < |ss| => (ss[i].name, SelectionValue(ss[i]).value))
  }

  lemma {:induction false} SelectionsOkEach(ss: seq<Selection>)
    requires AllFieldsIn(ss)
    ensures forall i :: 0 <= i < |ss| ==> SelectionValue(ss[i]).Ok?
    decreases |ss|
  {
    if ss != [] {
      SelectionValueOk(ss[0]);
      SelectionsOkEach(ss[1..]);
      forall i | 0 < i < |ss| ensures SelectionValue(ss[i]).Ok? {
        assert ss[1..][i - 1] == ss[i];
      }
    }
  }

  lemma {:induction false} SelectionPairsCons(ss: seq<Selection>)
    requires ss != [] && AllFieldsIn(ss)
    ensures SelectionValue(ss[0]).Ok? && AllFieldsIn(ss[1..])
    ensures SelectionPairs(ss) == [(ss[0].name, SelectionValue(ss[0]).value)] + SelectionPairs(ss[1..])
  {
    SelectionValueOk(ss[0]);
  }

  /**
   * The result shape: the selected fields' names, each once, each holding
   * the value of the last field of that name.
   */
  lemma {:induction false} SelectionsIntoPairs(done: seq<(string, Json)>, ss: seq<Selection>)
    requires AllFieldsIn(ss)
    ensures SelectionsInto(FromPairs(done), ss) == Ok(FromPairs(done + SelectionPairs(ss)))
    decreases ss
  {
    if ss == [] {
      assert done + SelectionPairs(ss) == done;
    } else {
      SelectionPairsCons(ss);
      var p := (ss[0].name, SelectionValue(ss[0]).value);
      FromPairsSnoc(done, p);
      SelectionsIntoPairs(done + [p], ss[1..]);
      assert done + [p] + SelectionPairs(ss[1..]) == done + SelectionPairs(ss);
    }
  }

  /** Each selected name appears once in the result and holds what its last field yields: `true` for a leaf. */
  lemma {:induction false} SelectionsLastWins(ss: seq<Selection>, k: string)
    requires AllFieldsIn(ss)
    ensures SelectionsInto([], ss).Ok?
    ensures DistinctKeys(SelectionsInto([], ss).value)
    ensures Get(SelectionsInto([], ss).value, k) == LastValue(SelectionPairs(ss), k)
    ensures forall i :: 0 <= i < |ss| && ss[i].Field? && ss[i].selectionSet.None? ==> SelectionPairs(ss)[i].1 == Bool(true)
  {
    SelectionsIntoPairs([], ss);
    assert FromPairs<Json>([]) == [];
    assert [] + SelectionPairs(ss) == SelectionPairs(ss);
    GetFromPairs(SelectionPairs(ss), k);
    FromPairsDistinct(SelectionPairs(ss));
  }

  /**
   * `extractExecuteOptions` succeeds exactly on a single query or mutation
   * selecting a single field whose arguments and sub-selections all
   * extract; the field's name is then the method, and a field with no
   * sub-selection asks for the empty result record.
   */
  lemma {:induction false} ExecuteOptionsShape(doc: Document, variables: Record<Json>)
    ensures var r := ExecuteOptionsOf(doc, variables);
      r.Ok? <==>
        |doc.definitions| == 1 && doc.definitions[0].OperationDefinition? &&
        doc.definitions[0].operation != Subscription &&
        |doc.definitions[0].selectionSet.selections| == 1 &&
        var field := doc.definitions[0].selectionSet.selections[0];
        field.Field? &&
        (field.arguments.Some? ==> ValuesOk(field.arguments.value, variables)) &&
        (field.selectionSet.Some? ==> AllFieldsIn(field.selectionSet.value.selections))
    ensures var r := ExecuteOptionsOf(doc, variables);
      r.Ok? ==>
        var field := doc.definitions[0].selectionSet.selections[0];
        r.value.methodName == field.name &&
        (r.value.moduleName == "query" || r.value.moduleName == "mutation") &&
        (field.arguments.None? ==> r.value.input == []) &&
        (field.arguments.Some? ==> r.value.input == FromPairs(FieldPairs(field.arguments.value, variables))) &&
        (field.selectionSet.None? ==> r.value.results == []) &&
        (field.selectionSet.Some? ==> r.value.results == FromPairs(SelectionPairs(field.selectionSet.value.selections)))
  {
    assert FromPairs<Json>([]) == [];
    if |doc.definitions| == 1 && doc.definitions[0].OperationDefinition? {
      var selections := doc.definitions[0].selectionSet.selections;
      if |selections| == 1 && selections[0].Field? {
        var field := selections[0];
        if field.arguments.Some? {
          FieldsIntoOk([], field.arguments.value, variables);
          if ValuesOk(field.arguments.value, variables) {
            FieldsIntoPairs([], field.arguments.value, variables);
            assert [] + FieldPairs(field.arguments.value, variables) == FieldPairs(field.arguments.value, variables);
          }
        }
        if field.selectionSet.Some? {
          SelectionsIntoOk([], field.selectionSet.value.selections);
          if AllFieldsIn(field.selectionSet.value.selections) {
            SelectionsIntoPairs([], field.selectionSet.value.selections);
            assert [] + SelectionPairs(field.selectionSet.value.selections) == SelectionPairs(field.selectionSet.value.selections);
          }
        }
      }
    }
  }

  // Methods: the source fills its arrays and records in loops.

  method ExtractValue(node: ValueNode, variables: Record<Json>) returns (r: Result<Json, string>)
    ensures r == ValueOf(node, variables)
    decreases node
  {
    match node
    case Variable(name) =>
      var v := Get(variables, name);
      r := Ok(if v.Some? then v.value else Undefined);
    case IntValue(raw) => r := Ok(Str(raw));
    case FloatValue(raw) => r := Ok(Str(raw));
    case StringValue(s) => r := Ok(Str(s));
    case BooleanValue(b) => r := Ok(Bool(b));
    case EnumValue(raw) => r := Ok(Str(raw));
    case NullValue => r := Ok(Null);
    case ListValue(values) =>
      var result: seq<Json> := [];
      var i := 0;
      while i < |values|
        invariant 0 <= i <= |values|
        invariant ValuesInto(result, values[i..], variables) == ValuesInto([], values, variables)
      {
        assert values[i..][1..] == values[i + 1..];
        var v := ExtractValue(values[i], variables);
        if v.Err? {
          return Err(v.error);
        }
        result := result + [v.value];
        i := i + 1;
      }
      r := Ok(Arr(result));
    case ObjectValue(fields) =>
      var result: Record<Json> := [];
      var i := 0;
      while i < |fields|
        invariant 0 <= i <= |fields|
        invariant FieldsInto(result, fields[i..], variables) == FieldsInto([], fields, variables)
      {
        assert fields[i..][1..] == fields[i + 1..];
        var v := ExtractValue(fields[i].value, variables);
        if v.Err? {
          return Err(v.error);
        }
        result := Put(result, fields[i].name, v.value);
        i := i + 1;
      }
      r := Ok(Obj(result));
    case UnknownValue(_) => r := Err(UNSUPPORTED_VALUE);
  }

  method ExtractSelections(selections: seq<Selection>) returns (r: Result<Record<Json>, string>)
    ensures r == SelectionsInto([], selections)
    decreases selections, 0
  {
    var result: Record<Json> := [];
    var i := 0;
    while i < |selections|
      invariant 0 <= i <= |selections|
      invariant SelectionsInto(result, selections[i..]) == SelectionsInto([], selections)
    {
      assert selections[i..][1..] == selections[i + 1..];
      var v := ExtractSelection(selections[i]);
      if v.Err? {
        return Err(v.error);
      }
      result := Put(result, selections[i].name, v.value);
      i := i + 1;
    }
    return Ok(result);
  }

  /** One turn of `extractSelections`'s loop. */
  method ExtractSelection(selection: Selection) returns (r: Result<Json, string>)
    ensures r == SelectionValue(selection)
    decreases selection, 1
  {
    match selection
    case Field(_, _, None) =>
      r := Ok(Bool(true));
    case Field(_, _, Some(selectionSet)) =>
      var sub := ExtractSelections(selectionSet.selections);
      r := if sub.Err? then Err(sub.error) else Ok(Obj(sub.value));
    case _ =>
      r := Err(UNSUPPORTED_RESULT_SELECTION);
  }

  method ExtractExecuteOptions(doc: Document, variables: Record<Json>) returns (r: Result<ExecuteOptions, string>)
    ensures r == ExecuteOptionsOf(doc, variables)
  {
    if |doc.definitions| == 0 {
      return Err(EMPTY_DOCUMENT);
    }
    if |doc.definitions| > 1 {
      return Err(MULTIPLE_DEFINITIONS);
    }
    var def := doc.definitions[0];
    if !def.OperationDefinition? {
      return Err(UnrecognizedDefinition(def.kind));
    }
    var op := def.operation;
    if op == Subscription {
      return Err(SUBSCRIPTION);
    }
    var selections := def.selectionSet.selections;
    if |selections| == 0 {
      return Err(EMPTY_SELECTION_SET);
    }
    if |selections| > 1 {
      return Err(MULTIPLE_SELECTIONS);
    }
    var selection := selections[0];
    if !selection.Field? {
      return Err(UnsupportedSelection(SelectionKind(selection)));
    }
    var args: Record<Json> := [];
    if selection.arguments.Some? {
      var fields := selection.arguments.value;
      var i := 0;
      while i < |fields|
        invariant 0 <= i <= |fields|
        invariant FieldsInto(args, fields[i..], variables) == FieldsInto([], fields, variables)
      {
        assert fields[i..][1..] == fields[i + 1..];
        var v := ExtractValue(fields[i].value, variables);
        if v.Err? {
          return Err(v.error);
        }
        args := Put(args, fields[i].name, v.value);
        i := i + 1;
      }
    }
    var results: Record<Json> := [];
    if selection.selectionSet.Some? {
      var sub := ExtractSelections(selection.selectionSet.value.selections);
      if sub.Err? {
        return Err(sub.error);
      }
      results := sub.value;
    }
    return Ok(ExecuteOptions(OperationName(op), selection.name, args, results));
  }
}
