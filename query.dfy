/**
 * `urllib.parse.parse_qs` with its defaults, as the link parser uses it (main.py:77), and
 * the `get_param` helper that reads one value from the result (main.py:79-80).
 *
 * `parse_qsl` splits the query on `&` and drops empty fields and fields without `=`. It
 * splits each remaining field at its first `=` and drops fields whose value is empty
 * (`keep_blank_values=False`). In the names and values it turns `+` into a space and
 * percent-decodes them. `parse_qs` then groups the values by name, in order of appearance.
 */
module Query {
  import opened Wrappers
  import opened PyStr
  import opened Percent

  type Pair = (string, string)

  /** `unquote(x.replace('+', ' '))`, the decoding of one query name or value. */
  function FormDecode(x: string): string {
    Unquote(Replace(x, '+', ' '))
  }

  /** The pair one `&`-separated field contributes, if any. */
  function ParseField(field: string): (r: Option<Pair>)
    ensures '=' !in field ==> r == None
    ensures r.Some? ==> exists name, value ::
      && field == name + "=" + value && '=' !in name && value != ""
      && r.value == (FormDecode(name), FormDecode(value))
  {
    if '=' !in field then None
    else
      var (name, value) := Partition(field, '=');
      assert field == name + "=" + value;
      if value == "" then None else Some((FormDecode(name), FormDecode(value)))
  }

  function ParseFields(fields: seq<string>): seq<Pair> {
    if fields == [] then []
    else
      match ParseField(fields[0])
      case None => ParseFields(fields[1..])
      case Some(p) => [p] + ParseFields(fields[1..])
  }

  /** `parse_qsl(qs)`. */
  function ParseQsl(qs: string): seq<Pair> {
    if qs == "" then [] else ParseFields(Split(qs, '&'))
  }

  /** The values paired with `name`, in order. */
  function ValuesOf(pairs: seq<Pair>, name: string): seq<string> {
    if pairs == [] then []
    else if pairs[0].0 == name then [pairs[0].1] + ValuesOf(pairs[1..], name)
    else ValuesOf(pairs[1..], name)
  }

  /** The value of the first pair named `name`. */
  function FirstValue(pairs: seq<Pair>, name: string): Option<string> {
    if pairs == [] then None
    else if pairs[0].0 == name then Some(pairs[0].1)
    else FirstValue(pairs[1..], name)
  }

  /**
   * The dictionary `parse_qs` builds from the pairs: it walks them in order and appends
   * each value to the list of its name.
   */
  function Group(pairs: seq<Pair>): (d: map<string, seq<string>>)
    ensures forall name :: name in d <==> ValuesOf(pairs, name) != []
    ensures forall name :: name in d ==> d[name] == ValuesOf(pairs, name)
  {
    if pairs == [] then map[]
    else
      var front := pairs[..|pairs| - 1];
      var (name, value) := pairs[|pairs| - 1];
      var d := Group(front);
      ValuesOfSnoc(front, (name, value));
      assert pairs == front + [(name, value)];
      d[name := (if name in d then d[name] else []) + [value]]
  }

  lemma {:induction false} ValuesOfSnoc(pairs: seq<Pair>, p: Pair)
    ensures forall name ::
              ValuesOf(pairs + [p], name) == ValuesOf(pairs, name) + (if p.0 == name then [p.1] else [])
  {
    if pairs != [] {
      ValuesOfSnoc(pairs[1..], p);
      assert (pairs + [p])[1..] == pairs[1..] + [p];
    } else {
      assert forall name :: ValuesOf([p], name) == (if p.0 == name then [p.1] else []) by {
        forall name ensures ValuesOf([p], name) == (if p.0 == name then [p.1] else []) {
          assert [p][1..] == [];
        }
      }
    }
  }

  /** `parse_qs(qs)`. */
  function ParseQs(qs: string): map<string, seq<string>> {
    Group(ParseQsl(qs))
  }

  /** Every name `parse_qs` returns has at least one value. */
  predicate NonEmptyLists(params: map<string, seq<string>>) {
    forall name :: name in params ==> params[name] != []
  }

  /** `params.get(name, [default])[0]`. */
  function GetParam(params: map<string, seq<string>>, name: string, default: string): string
    requires NonEmptyLists(params)
  {
    if name in params then params[name][0] else default
  }

  lemma {:induction false} FirstOfValues(pairs: seq<Pair>, name: string)
    ensures ValuesOf(pairs, name) == [] <==> FirstValue(pairs, name) == None
    ensures ValuesOf(pairs, name) != [] ==> FirstValue(pairs, name) == Some(ValuesOf(pairs, name)[0])
  {
    if pairs != [] {
      FirstOfValues(pairs[1..], name);
    }
  }

  /**
   * `get_param` returns the value of the first field naming the key, and the default
   * when no field names it: a repeated key yields its first value.
   */
  lemma FirstValueWins(qs: string, name: string, default: string)
    ensures NonEmptyLists(ParseQs(qs))
    ensures GetParam(ParseQs(qs), name, default) == FirstValue(ParseQsl(qs), name).GetOr(default)
  {
    FirstOfValues(ParseQsl(qs), name);
  }

  lemma {:induction false} ParseFieldsAppend(a: seq<string>, b: seq<string>)
    ensures ParseFields(a + b) == ParseFields(a) + ParseFields(b)
  {
    if a != [] {
      assert (a + b)[0] == a[0] && (a + b)[1..] == a[1..] + b;
      ParseFieldsAppend(a[1..], b);
      match ParseField(a[0])
      case None =>
      case Some(p) =>
        assert [p] + (ParseFields(a[1..]) + ParseFields(b)) == [p] + ParseFields(a[1..]) + ParseFields(b);
    } else {
      assert a + b == b;
    }
  }

  /** The fields of `a & b` are those of `a` followed by those of `b`. */
  lemma ParseQslAppend(a: string, b: string)
    ensures ParseQsl(a + "&" + b) == ParseQsl(a) + ParseQsl(b)
  {
    SplitAppend(a, '&', b);
    assert a + "&" + b == a + ['&'] + b;
    ParseFieldsAppend(Split(a, '&'), Split(b, '&'));
    if a == "" {
      assert Split(a, '&') == [""];
    }
    if b == "" {
      assert Split(b, '&') == [""];
    }
  }

  lemma {:induction false} FirstValueAppend(a: seq<Pair>, b: seq<Pair>, name: string)
    ensures FirstValue(a + b, name) ==
      if FirstValue(a, name).Some? then FirstValue(a, name) else FirstValue(b, name)
  {
    if a != [] {
      assert (a + b)[0] == a[0] && (a + b)[1..] == a[1..] + b;
      FirstValueAppend(a[1..], b, name);
    } else {
      assert a + b == b;
    }
  }

  /** When the key occurs in `a`, what follows `&` cannot change the value read. */
  lemma RepeatedKey(a: string, b: string, name: string, default: string)
    requires FirstValue(ParseQsl(a), name).Some?
    ensures GetParam(ParseQs(a + "&" + b), name, default) == GetParam(ParseQs(a), name, default)
  {
    FirstValueWins(a + "&" + b, name, default);
    FirstValueWins(a, name, default);
    ParseQslAppend(a, b);
    FirstValueAppend(ParseQsl(a), ParseQsl(b), name);
  }

  /** A field with an empty value (`sni=`) is dropped, so the default is read. */
  lemma BlankValueDropped(name: string, default: string)
    requires '&' !in name && '=' !in name
    ensures GetParam(ParseQs(name + "="), name, default) == default
  {
    var field := name + "=";
    assert '&' !in field;
    assert Split(field, '&') == [field];
    PartitionAt(name, '=', "");
    assert name + ['='] + "" == field;
    assert ParseField(field) == None;
    assert ParseFields([field]) == ParseFields([]);
  }

  /**
   * A single plain field `name=value` (no `%`, `+`, `&`, and no `=` in the name)
   * yields exactly that value.
   */
  lemma PlainField(name: string, value: string, default: string)
    requires '&' !in name && '=' !in name && '%' !in name && '+' !in name
    requires '&' !in value && '%' !in value && '+' !in value && value != ""
    ensures GetParam(ParseQs(name + "=" + value), name, default) == value
  {
    var field := name + "=" + value;
    assert '&' !in field;
    assert Split(field, '&') == [field];
    PartitionAt(name, '=', value);
    assert name + ['='] + value == field;
    assert Replace(name, '+', ' ') == name;
    assert Replace(value, '+', ' ') == value;
    UnquotePlain(name);
    UnquotePlain(value);
    assert ParseField(field) == Some((name, value));
    assert ParseFields([field]) == [(name, value)];
    FirstValueWins(field, name, default);
  }
}
