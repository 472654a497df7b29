/**
 * The array searches both stores use on their tunnel lists: `findIndex` and `find` by id,
 * and `filter` that drops every record with an id.
 */
module TunnelLists {
  import opened Wrappers
  import opened TunnelTypes

  /** `s.findIndex(t => t.id === id)`: the first index holding `id`, or -1. */
  function FindIndex(s: seq<Tunnel>, id: string): (r: int)
    ensures -1 <= r < |s|
    ensures r == -1 <==> forall j :: 0 <= j < |s| ==> s[j].id != id
    ensures 0 <= r ==> s[r].id == id && forall j :: 0 <= j < r ==> s[j].id != id
  {
    if |s| == 0 then -1
    else if s[0].id == id then 0
    else
      var k := FindIndex(s[1..], id);
      if k == -1 then -1 else k + 1
  }

  /** `s.find(t => t.id === id)`: the first record holding `id`. */
  function Find(s: seq<Tunnel>, id: string): (r: Option<Tunnel>)
    ensures r.None? <==> forall j :: 0 <= j < |s| ==> s[j].id != id
    ensures r.Some? ==> r.value in s && r.value.id == id
  {
    if |s| == 0 then None
    else if s[0].id == id then Some(s[0])
    else Find(s[1..], id)
  }

  /** `find` returns the element at the index `findIndex` reports. */
  lemma {:induction false} FindAtFindIndex(s: seq<Tunnel>, id: string)
    ensures Find(s, id) == if FindIndex(s, id) == -1 then None else Some(s[FindIndex(s, id)])
  {
    if |s| > 0 && s[0].id != id {
      FindAtFindIndex(s[1..], id);
    }
  }

  /** `s.filter(t => t.id !== id)`. */
  function RemoveById(s: seq<Tunnel>, id: string): (r: seq<Tunnel>)
    ensures |r| <= |s|
    ensures forall t :: t in r <==> t in s && t.id != id
  {
    if |s| == 0 then []
    else if s[0].id == id then RemoveById(s[1..], id)
    else [s[0]] + RemoveById(s[1..], id)
  }

  /** The filter works element by element, so it keeps the order of the records it keeps. */
  lemma {:induction false} RemoveByIdConcat(a: seq<Tunnel>, b: seq<Tunnel>, id: string)
    ensures RemoveById(a + b, id) == RemoveById(a, id) + RemoveById(b, id)
  {
    if |a| > 0 {
      assert (a + b)[1..] == a[1..] + b;
      RemoveByIdConcat(a[1..], b, id);
    } else {
      assert a + b == b;
    }
  }

  /** With no record holding `id`, the filter keeps the whole list. */
  lemma {:induction false} RemoveByIdAbsent(s: seq<Tunnel>, id: string)
    requires FindIndex(s, id) == -1
    ensures RemoveById(s, id) == s
  {
    if |s| > 0 {
      assert s[0].id != id;
      assert forall j :: 0 <= j < |s| - 1 ==> s[1..][j].id == s[j + 1].id;
      RemoveByIdAbsent(s[1..], id);
      assert s == [s[0]] + s[1..];
    }
  }

  /** The filter shortens the list exactly when some record holds `id`. */
  lemma {:induction false} RemoveByIdShrinks(s: seq<Tunnel>, id: string)
    ensures |RemoveById(s, id)| < |s| <==> FindIndex(s, id) != -1
  {
    if |s| > 0 {
      RemoveByIdShrinks(s[1..], id);
      if s[0].id != id && FindIndex(s[1..], id) == -1 {
        RemoveByIdAbsent(s[1..], id);
      }
    }
  }

  /** How many records use interface `name`. */
  function CountInterface(s: seq<Tunnel>, name: string): (n: nat)
    ensures n <= |s|
    ensures n == 0 <==> forall j :: 0 <= j < |s| ==> s[j].interfaceName != name
  {
    if |s| == 0 then 0
    else (if s[0].interfaceName == name then 1 else 0) + CountInterface(s[1..], name)
  }

  /** Appending a record adds one use of its interface name, whatever the list already holds. */
  lemma {:induction false} CountInterfaceAppend(s: seq<Tunnel>, t: Tunnel, name: string)
    ensures CountInterface(s + [t], name)
         == CountInterface(s, name) + (if t.interfaceName == name then 1 else 0)
  {
    if |s| > 0 {
      assert (s + [t])[1..] == s[1..] + [t];
      CountInterfaceAppend(s[1..], t, name);
    } else {
      assert s + [t] == [t];
    }
  }
}
