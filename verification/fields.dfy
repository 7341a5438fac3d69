/** Decoding a record from a name -> text map, the way both bots turn the
    fields of a report embed (or of a submitted modal) into a struct with
    serde: a field may be given under its own name or one alias, giving it
    under both is an error, a required field that is absent is an error, and
    map entries that name no field are ignored. */
module Fields {
  import opened Wrappers

  type FieldMap = map<string, string>

  datatype FieldError =
    | MissingField(name: string)
    | DuplicateField(name: string)
    | InvalidType(name: string)
    | UnknownVariant(name: string, value: string)

  /** The text given for a field known under `names` (its own name first,
      then its aliases): none, exactly one, or an error when several are given. */
  function Lookup(m: FieldMap, names: seq<string>): (r: Result<Option<string>, FieldError>)
    requires |names| >= 1
    ensures r.Ok? && r.value.None? <==> forall i :: 0 <= i < |names| ==> names[i] !in m
    ensures r.Ok? && r.value.Some? ==> exists i :: 0 <= i < |names| && names[i] in m && m[names[i]] == r.value.value
    ensures r.Err? <==> exists i, j :: 0 <= i < j < |names| && names[i] in m && names[j] in m
    ensures forall i :: 0 <= i < |names| && names[i] in m && (forall j :: 0 <= j < |names| && j != i ==> names[j] !in m)
                        ==> r == Ok(Some(m[names[i]]))
    decreases |names|
  {
    if |names| == 1 then
      if names[0] in m then Ok(Some(m[names[0]])) else Ok(None)
    else
      assert forall j :: 1 <= j < |names| ==> names[j] == names[1..][j - 1];
      match Lookup(m, names[1..])
      case Err(e) => Err(e)
      case Ok(None) => if names[0] in m then Ok(Some(m[names[0]])) else Ok(None)
      case Ok(Some(v)) => if names[0] in m then Err(DuplicateField(names[0])) else Ok(Some(v))
  }

  /** A field without `#[serde(default)]`: absent is `MissingField`. */
  function Required(m: FieldMap, names: seq<string>): (r: Result<string, FieldError>)
    requires |names| >= 1
    ensures (forall i :: 0 <= i < |names| ==> names[i] !in m) ==> r == Err(MissingField(names[0]))
    ensures r.Ok? ==> exists i :: 0 <= i < |names| && names[i] in m && m[names[i]] == r.value
  {
    match Lookup(m, names)
    case Err(e) => Err(e)
    case Ok(None) => Err(MissingField(names[0]))
    case Ok(Some(v)) => Ok(v)
  }

  /** serde reads a map entry by entry, in key order, and stops at the first
      entry it cannot take (a field seen twice, a text of the wrong type or
      variant); only after the last entry does it look for missing fields.
      serde_json's map is a `BTreeMap`, so the keys come in byte order.
      `errs` holds what goes wrong at each key in that order, if anything;
      the result is the first error. */
  function FirstError(errs: seq<Option<FieldError>>): (r: Option<FieldError>)
    ensures r.None? <==> forall i :: 0 <= i < |errs| ==> errs[i].None?
    ensures r.Some? ==> exists i :: 0 <= i < |errs| && errs[i] == r
  {
    if |errs| == 0 then None
    else if errs[0].Some? then errs[0]
    else
      var rest := FirstError(errs[1..]);
      assert forall j :: 1 <= j < |errs| ==> errs[j] == errs[1..][j - 1];
      rest
  }

  /** The error reported is that of a key before which every key reads
      cleanly. */
  lemma {:induction false} FirstErrorIsFirst(errs: seq<Option<FieldError>>)
    requires FirstError(errs).Some?
    ensures exists i :: 0 <= i < |errs| && errs[i] == FirstError(errs) && forall j :: 0 <= j < i ==> errs[j].None?
  {
    if errs[0].None? {
      FirstErrorIsFirst(errs[1..]);
      var i :| 0 <= i < |errs| - 1 && errs[1..][i] == FirstError(errs[1..]) && forall j :: 0 <= j < i ==> errs[1..][j].None?;
      assert forall j :: 0 <= j < i + 1 ==> errs[j].None? by {
        forall j | 0 < j < i + 1 ensures errs[j].None? {
          assert errs[j] == errs[1..][j - 1];
        }
      }
      assert errs[i + 1] == FirstError(errs);
    }
  }

  /** A key that fails, after keys that all read cleanly, decides the error. */
  lemma {:induction false} FirstErrorAt(errs: seq<Option<FieldError>>, i: nat)
    requires i < |errs| && errs[i].Some?
    requires forall j :: 0 <= j < i ==> errs[j].None?
    ensures FirstError(errs) == errs[i]
  {
    if i > 0 {
      assert errs[0].None?;
      assert forall j :: 0 <= j < i - 1 ==> errs[1..][j] == errs[j + 1];
      FirstErrorAt(errs[1..], i - 1);
    }
  }

  /** A field given under exactly one of its names decodes to that text. */
  lemma RequiredPresent(m: FieldMap, name: string, alias: string)
    requires name != alias
    requires alias in m && name !in m
    ensures Required(m, [name, alias]) == Ok(m[alias])
  {
    assert [name, alias][1..] == [alias];
    assert Lookup(m, [alias]) == Ok(Some(m[alias]));
  }

  /** Giving a field under both its name and its alias is rejected. */
  lemma RequiredDuplicate(m: FieldMap, name: string, alias: string)
    requires name != alias
    requires alias in m && name in m
    ensures Required(m, [name, alias]).Err?
  {
    assert [name, alias][1..] == [alias];
    assert Lookup(m, [alias]) == Ok(Some(m[alias]));
  }
}
