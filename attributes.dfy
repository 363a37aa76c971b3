/**
 * The dictionaries that the repositories' `update` methods walk with
 * `setattr`: a sequence of (attribute name, value) entries in dictionary
 * order, whose values are Python `None`, a string or a boolean.
 */
module Attributes {
  import opened Wrappers

  datatype Value = Null | Text(s: string) | Flag(b: bool)

  type Entry = (string, Value)

  /** The value the last non-`None` entry for `name` carries, if there is one. */
  function LastAssigned(data: seq<Entry>, name: string): (r: Option<Value>)
    ensures r.Some? ==> r.value != Null
    ensures r.Some? <==> exists i :: 0 <= i < |data| && data[i].0 == name && data[i].1 != Null
    ensures r.Some? ==> exists i :: 0 <= i < |data| && data[i] == (name, r.value)
  {
    if data == [] then None
    else if data[|data| - 1].0 == name && data[|data| - 1].1 != Null then Some(data[|data| - 1].1)
    else
      var r := LastAssigned(data[..|data| - 1], name);
      assert forall i :: 0 <= i < |data| - 1 ==> data[..|data| - 1][i] == data[i];
      r
  }

  /** Appending one entry changes what `name` was last assigned only if the entry assigns `name`. */
  lemma LastAssignedSnoc(data: seq<Entry>, e: Entry, name: string)
    ensures LastAssigned(data + [e], name)
         == if e.0 == name && e.1 != Null then Some(e.1) else LastAssigned(data, name)
  {
    assert (data + [e])[..|data + [e]| - 1] == data;
  }

  /** In a dictionary built from two parts, the second part's assignments win. */
  lemma {:induction false} LastAssignedAppend(a: seq<Entry>, b: seq<Entry>, name: string)
    ensures LastAssigned(a + b, name)
         == if LastAssigned(b, name).Some? then LastAssigned(b, name) else LastAssigned(a, name)
  {
    if b == [] {
      assert a + b == a;
    } else {
      var k := |b| - 1;
      LastAssignedAppend(a, b[..k], name);
      assert a + b == (a + b[..k]) + [b[k]];
      assert b == b[..k] + [b[k]];
      LastAssignedSnoc(a + b[..k], b[k], name);
      LastAssignedSnoc(b[..k], b[k], name);
    }
  }

  /** What a request field assigns: its string when supplied, nothing when it is `None`. */
  function Supplied(v: Option<string>): Option<Value> {
    if v.Some? then Some(Text(v.value)) else None
  }
}
