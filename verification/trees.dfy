// Untyped object trees and the panic-free readers of internal/cluster/build.go.
module Trees {
  import opened Prelude

  // Other stands for numbers, booleans and null.
  datatype Value = Str(s: string) | Obj(fields: map<string, Value>) | Arr(items: seq<Value>) | Other

  function Get(v: Value, k: string): Option<Value> {
    if v.Obj? && k in v.fields then Some(v.fields[k]) else None
  }

  function Get2(v: Value, k: string, l: string): Option<Value> {
    match Get(v, k)
    case None => None
    case Some(u) => Get(u, l)
  }

  function AsString(o: Option<Value>): string {
    if o.Some? && o.value.Str? then o.value.s else ""
  }

  function AsMap(o: Option<Value>): Option<Value> {
    if o.Some? && o.value.Obj? then o else None
  }

  // The list at a path; anything but a list reads as empty.
  function Items(o: Option<Value>): seq<Value> {
    if o.Some? && o.value.Arr? then o.value.items else []
  }

  // A map whose every value is a string; one other value fails the whole read.
  function AsStringMap(o: Option<Value>): Option<map<string, string>> {
    if o.Some? && o.value.Obj? && (forall k :: k in o.value.fields ==> o.value.fields[k].Str?)
    then Some(map k | k in o.value.fields :: o.value.fields[k].s)
    else None
  }

  // A list whose every element is a string; one other element fails the whole read.
  function AsStringSlice(o: Option<Value>): Option<seq<string>> {
    if o.Some? && o.value.Arr? then Strings(o.value.items) else None
  }

  function Strings(items: seq<Value>): Option<seq<string>> {
    if forall i :: 0 <= i < |items| ==> items[i].Str?
    then Some(seq(|items|, i requires 0 <= i < |items| && items[i].Str? => items[i].s))
    else None
  }

  method NestedStringMap(o: Option<Value>) returns (r: Option<map<string, string>>)
    ensures r == AsStringMap(o)
  {
    if o.None? || !o.value.Obj? {
      return None;
    }
    var m := o.value.fields;
    var out: map<string, string> := map[];
    var rest := m.Keys;
    while rest != {}
      invariant rest <= m.Keys
      invariant forall k :: k in m.Keys - rest ==> m[k].Str?
      invariant out.Keys == m.Keys - rest
      invariant forall k :: k in out ==> out[k] == m[k].s
      decreases rest
    {
      var k :| k in rest;
      if !m[k].Str? {
        return None;
      }
      out := out[k := m[k].s];
      rest := rest - {k};
    }
    assert out == AsStringMap(o).value;
    return Some(out);
  }

  method NestedStringSlice(o: Option<Value>) returns (r: Option<seq<string>>)
    ensures r == AsStringSlice(o)
  {
    if o.None? || !o.value.Arr? {
      return None;
    }
    var items := o.value.items;
    var out: seq<string> := [];
    for i := 0 to |items|
      invariant |out| == i
      invariant forall j :: 0 <= j < i ==> items[j].Str? && out[j] == items[j].s
    {
      if !items[i].Str? {
        return None;
      }
      out := out + [items[i].s];
    }
    assert out == AsStringSlice(o).value;
    return Some(out);
  }
}
