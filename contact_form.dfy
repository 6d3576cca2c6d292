/**
 * The contact form's submit handler (script.js:127-155).
 *
 * The form's fields, as the browser's FormData yields them (a name and a
 * value, in document order), are flattened into a plain object. The first
 * value for a name is stored as a scalar; a later value for the same name
 * promotes the property to an array and is appended to it. Whether a name is
 * "already present" is JavaScript truthiness of the stored property, so a
 * stored empty string does not count as present and is overwritten.
 */
module ContactForm {
  import opened Options

  /** One form field as FormData yields it: (name, value). */
  type Entry = (string, string)

  /** A property of the flattened object: a string, or an array of strings. */
  datatype FieldValue = Scalar(text: string) | List(items: seq<string>)

  /** JavaScript truthiness of a stored property: "" is falsy, every array is truthy. */
  predicate Truthy(v: FieldValue)
    ensures Truthy(v) <==> v != Scalar("")
  {
    match v
    case Scalar(s) => s != ""
    case List(_) => true
  }

  /** `data[key]`: the stored property, or `undefined` when there is none. */
  function Lookup(data: map<string, FieldValue>, key: string): Option<FieldValue> {
    if key in data then Some(data[key]) else None
  }

  /** The names that occur among the fields. */
  function Names(entries: seq<Entry>): set<string> {
    set i | 0 <= i < |entries| :: entries[i].0
  }

  /**
   * What the property for a name becomes when one more value arrives for it:
   * it turns into (or stays) an array exactly when the stored property is truthy.
   */
  function Step(current: Option<FieldValue>, value: string): (r: FieldValue)
    ensures r.List? <==> current.Some? && Truthy(current.value)
    ensures r.List? ==> |r.items| > 0 && r.items[|r.items| - 1] == value
    ensures r.Scalar? ==> r.text == value
  {
    match current
    case Some(Scalar(s)) => if s != "" then List([s, value]) else Scalar(value)
    case Some(List(xs)) => List(xs + [value])
    case None => Scalar(value)
  }

  lemma NamesSnoc(entries: seq<Entry>)
    requires entries != []
    ensures Names(entries) == Names(entries[..|entries| - 1]) + {entries[|entries| - 1].0}
  {
    var prefix := entries[..|entries| - 1];
    forall name | name in Names(entries)
      ensures name in Names(prefix) + {entries[|entries| - 1].0}
    {
      var i :| 0 <= i < |entries| && entries[i].0 == name;
      if i < |entries| - 1 {
        assert prefix[i].0 == name;
      }
    }
    forall name | name in Names(prefix)
      ensures name in Names(entries)
    {
      var i :| 0 <= i < |prefix| && prefix[i].0 == name;
      assert entries[i].0 == name;
    }
  }

  /**
   * The object the submit handler builds from the fields, one field at a time
   * in order. Its properties are exactly the names of the fields.
   */
  function FlattenSpec(entries: seq<Entry>): (data: map<string, FieldValue>)
    ensures data.Keys == Names(entries)
  {
    if entries == [] then map[]
    else
      var prefix := entries[..|entries| - 1];
      var (key, value) := entries[|entries| - 1];
      var data := FlattenSpec(prefix);
      NamesSnoc(entries);
      data[key := Step(Lookup(data, key), value)]
  }

  /** The values submitted under `name`, in submission order. */
  function ValuesOf(entries: seq<Entry>, name: string): (values: seq<string>)
    ensures values == [] <==> name !in Names(entries)
    ensures |values| <= |entries|
  {
    if entries == [] then []
    else
      var prefix := entries[..|entries| - 1];
      var (key, value) := entries[|entries| - 1];
      NamesSnoc(entries);
      ValuesOf(prefix, name) + if key == name then [value] else []
  }

  /** The property one name ends with when its values arrive one by one, looked at alone. */
  function Collapse(values: seq<string>): (r: Option<FieldValue>)
    ensures r.None? <==> values == []
  {
    if values == [] then None
    else Some(Step(Collapse(values[..|values| - 1]), values[|values| - 1]))
  }

  /** The index of the first non-empty value, or the number of values if every one is empty. */
  function FirstNonEmpty(values: seq<string>): (q: nat)
    ensures q <= |values|
    ensures forall i :: 0 <= i < q ==> values[i] == ""
    ensures q < |values| ==> values[q] != ""
  {
    if values == [] || values[0] != "" then 0
    else 1 + FirstNonEmpty(values[1..])
  }

  /**
   * The property a name ends with, read off its values directly: an array of
   * the values from the first non-empty value that some later value follows;
   * if there is no such value, the last value as a scalar.
   */
  function Shape(values: seq<string>): FieldValue
    requires values != []
  {
    var q := FirstNonEmpty(values);
    if q < |values| - 1 then List(values[q..]) else Scalar(values[|values| - 1])
  }

  lemma {:induction false} FirstNonEmptySnoc(values: seq<string>, v: string)
    ensures FirstNonEmpty(values + [v]) ==
      if FirstNonEmpty(values) < |values| then FirstNonEmpty(values)
      else if v != "" then |values| else |values| + 1
  {
    if values != [] && values[0] == "" {
      assert (values + [v])[1..] == values[1..] + [v];
      FirstNonEmptySnoc(values[1..], v);
    }
  }

  /** Feeding the values one by one ends in exactly the shape read off them directly. */
  lemma {:induction false} CollapseIsShape(values: seq<string>)
    requires values != []
    ensures Collapse(values) == Some(Shape(values))
  {
    var prefix, v := values[..|values| - 1], values[|values| - 1];
    assert values == prefix + [v];
    assert Collapse(values) == Some(Step(Collapse(prefix), v));
    FirstNonEmptySnoc(prefix, v);
    if prefix != [] {
      CollapseIsShape(prefix);
      ShapeSnoc(prefix, v);
    }
  }

  /** How the directly read shape changes when one more value arrives. */
  lemma ShapeSnoc(prefix: seq<string>, v: string)
    requires prefix != []
    ensures Shape(prefix + [v]) == Step(Some(Shape(prefix)), v)
  {
    var values := prefix + [v];
    var q := FirstNonEmpty(prefix);
    FirstNonEmptySnoc(prefix, v);
    if q < |prefix| - 1 {
      assert FirstNonEmpty(values) == q;
      assert values[q..] == prefix[q..] + [v];
    } else if prefix[|prefix| - 1] != "" {
      assert FirstNonEmpty(values) == |prefix| - 1;
      assert values[|prefix| - 1..] == [prefix[|prefix| - 1], v];
    } else {
      assert FirstNonEmpty(values) >= |prefix|;
    }
  }

  /** Each name's property depends only on that name's own values: no other field touches it. */
  lemma {:induction false} FlattenPerName(entries: seq<Entry>, name: string)
    ensures Lookup(FlattenSpec(entries), name) == Collapse(ValuesOf(entries, name))
  {
    if entries != [] {
      var prefix := entries[..|entries| - 1];
      var (key, value) := entries[|entries| - 1];
      FlattenPerName(prefix, name);
      var values := ValuesOf(prefix, name);
      if key == name {
        assert ValuesOf(entries, name) == values + [value];
        assert (values + [value])[..|values|] == values;
      } else {
        assert ValuesOf(entries, name) == values;
      }
    }
  }

  /** The main characterisation: every name of the fields maps to the shape of its values. */
  lemma FlattenShape(entries: seq<Entry>, name: string)
    requires name in Names(entries)
    ensures name in FlattenSpec(entries)
    ensures FlattenSpec(entries)[name] == Shape(ValuesOf(entries, name))
  {
    FlattenPerName(entries, name);
    CollapseIsShape(ValuesOf(entries, name));
  }

  /** A name submitted once keeps its single value, as a scalar. */
  lemma SingleValueIsScalar(entries: seq<Entry>, name: string)
    requires |ValuesOf(entries, name)| == 1
    ensures name in FlattenSpec(entries)
    ensures FlattenSpec(entries)[name] == Scalar(ValuesOf(entries, name)[0])
  {
    FlattenShape(entries, name);
  }

  /**
   * A name submitted n >= 2 times, never with an empty value, becomes the
   * array of exactly those n values in submission order.
   */
  lemma RepeatedValuesFormList(entries: seq<Entry>, name: string)
    requires |ValuesOf(entries, name)| >= 2
    requires forall i :: 0 <= i < |ValuesOf(entries, name)| ==> ValuesOf(entries, name)[i] != ""
    ensures name in FlattenSpec(entries)
    ensures FlattenSpec(entries)[name] == List(ValuesOf(entries, name))
  {
    FlattenShape(entries, name);
    assert ValuesOf(entries, name)[0..] == ValuesOf(entries, name);
  }

  /** The truthiness quirk: a stored empty string is replaced by the next value instead of starting an array. */
  lemma EmptyValueIsReplaced(entries: seq<Entry>, name: string, value: string)
    requires name in FlattenSpec(entries) && FlattenSpec(entries)[name] == Scalar("")
    ensures FlattenSpec(entries + [(name, value)]) == FlattenSpec(entries)[name := Scalar(value)]
  {
    assert (entries + [(name, value)])[..|entries|] == entries;
  }

  /** Once a name holds an array, each later value for it appends exactly one element and changes no other name. */
  lemma ListGrowsByOne(entries: seq<Entry>, name: string, value: string)
    requires name in FlattenSpec(entries) && FlattenSpec(entries)[name].List?
    ensures FlattenSpec(entries + [(name, value)]) ==
      FlattenSpec(entries)[name := List(FlattenSpec(entries)[name].items + [value])]
  {
    assert (entries + [(name, value)])[..|entries|] == entries;
  }

  /**
   * The submit handler's loop: builds the object in place, one field at a time,
   * wrapping a truthy scalar into an array before pushing onto it.
   */
  method Flatten(entries: seq<Entry>) returns (data: map<string, FieldValue>)
    ensures data == FlattenSpec(entries)
    ensures data.Keys == Names(entries)
    ensures forall name :: name in data ==> data[name] == Shape(ValuesOf(entries, name))
  {
    data := map[];
    var i := 0;
    while i < |entries|
      invariant 0 <= i <= |entries|
      invariant data == FlattenSpec(entries[..i])
    {
      var (key, value) := entries[i];
      assert entries[..i + 1][..i] == entries[..i];
      ghost var next := FlattenSpec(entries[..i + 1]);
      assert next == data[key := Step(Lookup(data, key), value)];
      if key in data && Truthy(data[key]) {
        if !data[key].List? {
          data := data[key := List([data[key].text])];
        }
        data := data[key := List(data[key].items + [value])];
        assert data[key].items == next[key].items;
      } else {
        data := data[key := Scalar(value)];
      }
      i := i + 1;
    }
    assert entries[..i] == entries;
    forall name | name in data
      ensures data[name] == Shape(ValuesOf(entries, name))
    {
      FlattenShape(entries, name);
    }
  }

  /** The two page elements the submit handler changes besides building the object. */
  class ContactPanel {
    /** Inline `display` of the form's content block. */
    var formDisplay: string
    /** Whether the success message carries the "active" class. */
    var successShown: bool

    constructor ()
      ensures formDisplay == "" && !successShown
    {
      formDisplay := "";
      successShown := false;
    }

    /**
     * Submitting: the fields are flattened into the object that is logged,
     * the form's content is hidden and the success message is shown.
     */
    method Submit(entries: seq<Entry>) returns (logged: map<string, FieldValue>)
      modifies this
      ensures logged == FlattenSpec(entries)
      ensures formDisplay == "none" && successShown
    {
      logged := Flatten(entries);
      formDisplay := "none";
      successShown := true;
    }
  }

  /** The example submission: two fields named "service" become an ordered array, the rest stay scalars. */
  lemma ExampleSubmission()
    ensures FlattenSpec([("name", "A"), ("email", "b@x.com"), ("service", "web"), ("service", "seo")]) ==
      map["name" := Scalar("A"), "email" := Scalar("b@x.com"), "service" := List(["web", "seo"])]
  {
    var e1 := [("name", "A")];
    var e2 := e1 + [("email", "b@x.com")];
    var e3 := e2 + [("service", "web")];
    var e4 := e3 + [("service", "seo")];
    assert e1[..0] == [] && e2[..1] == e1 && e3[..2] == e2 && e4[..3] == e3;
    assert FlattenSpec(e1) == map["name" := Scalar("A")];
    assert FlattenSpec(e2) == map["name" := Scalar("A"), "email" := Scalar("b@x.com")];
    assert FlattenSpec(e3) == map["name" := Scalar("A"), "email" := Scalar("b@x.com"), "service" := Scalar("web")];
    assert e4 == [("name", "A"), ("email", "b@x.com"), ("service", "web"), ("service", "seo")];
  }
}
