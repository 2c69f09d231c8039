/**
 Local shell variables: a singly linked list that starts with the read-only HUSH_VERSION.
 Models get_local_var, set_local_var, unset_local_var and u_boot_hush_start of cli_hush.c.
 */
module HushVars {
  import opened Wrappers
  import opened HushExpand

  datatype Entry = Entry(name: string, value: string, exported: int, readOnly: bool)

  predicate Distinct(es: seq<Entry>) {
    forall i, j :: 0 <= i < j < |es| ==> es[i].name != es[j].name
  }

  /** What every operation keeps. */
  predicate Inv(es: seq<Entry>) {
    && es != [] && es[0].name == "HUSH_VERSION" && es[0].value == "0.01" && es[0].readOnly
    && Distinct(es)
    && forall i :: 0 < i < |es| ==> !es[i].readOnly
  }

  /** The position of a name, or the length when it is not there. */
  function Find(es: seq<Entry>, name: string): (k: nat)
    ensures k <= |es|
    ensures k < |es| ==> es[k].name == name
    ensures forall i :: 0 <= i < k ==> es[i].name != name
  {
    if es == [] then 0 else if es[0].name == name then 0 else 1 + Find(es[1..], name)
  }

  lemma FindIs(es: seq<Entry>, name: string, k: nat)
    requires k <= |es| && (k < |es| ==> es[k].name == name)
    requires forall i :: 0 <= i < k ==> es[i].name != name
    ensures Find(es, name) == k
  {
  }

  function Assign(es: seq<Entry>, name: string, value: string, exported: int): (r: (seq<Entry>, int))
    requires Inv(es)
    ensures Inv(r.0)
  {
    var k := Find(es, name);
    if k == |es| then (es + [Entry(name, value, exported, false)], 0)
    else if es[k].value == value then
      if exported > 0 && es[k].exported == 0 then (es[k := es[k].(exported := exported)], 0) else (es, 1)
    else if es[k].readOnly then (es, -1)
    else
      var exported' := if exported > 0 || es[k].exported > 1 then 1 else es[k].exported;
      (es[k := es[k].(value := value, exported := exported')], 0)
  }

  function Remove(es: seq<Entry>, name: string): (r: seq<Entry>)
    requires Inv(es)
    ensures Inv(r)
  {
    var k := Find(es, name);
    if k == |es| || es[k].readOnly then es else es[..k] + es[k + 1..]
  }

  /** The finite map the list stands for. */
  function AsMap(es: seq<Entry>): (m: map<string, string>)
    ensures forall n :: n in m <==> Find(es, n) < |es|
    ensures forall n :: n in m ==> m[n] == es[Find(es, n)].value
  {
    map n | n in (set e | e in es :: e.name) && Find(es, n) < |es| :: es[Find(es, n)].value
  }

  lemma AppendMap(es: seq<Entry>, e: Entry)
    requires Find(es, e.name) == |es|
    ensures AsMap(es + [e]) == AsMap(es)[e.name := e.value]
  {
    hide Find;
    var es' := es + [e];
    forall n ensures Find(es', n) == if n == e.name || Find(es, n) < |es| then Find(es, n) else |es'| {
      FindIs(es', n, if n == e.name || Find(es, n) < |es| then Find(es, n) else |es'|);
    }
  }

  lemma UpdateMap(es: seq<Entry>, k: nat, e: Entry)
    requires k < |es| && Distinct(es) && e.name == es[k].name
    ensures AsMap(es[k := e]) == AsMap(es)[e.name := e.value]
  {
    hide Find;
    var es' := es[k := e];
    FindIs(es, e.name, k);
    forall n ensures Find(es', n) == Find(es, n) {
      FindIs(es', n, Find(es, n));
    }
  }

  lemma DropMap(es: seq<Entry>, k: nat)
    requires k < |es| && Distinct(es)
    ensures AsMap(es[..k] + es[k + 1..]) == AsMap(es) - {es[k].name}
  {
    hide Find;
    var es' := es[..k] + es[k + 1..];
    forall n ensures n in AsMap(es') <==> n in AsMap(es) && n != es[k].name
             ensures n in AsMap(es') ==> AsMap(es')[n] == AsMap(es)[n] {
      var i := Find(es, n);
      FindIs(es', n, if i < k then i else if i == k || i == |es| then |es'| else i - 1);
    }
  }

  /** Setting a variable updates the map at that name only; the code is -1 exactly for a
      read-only variable with another value, which leaves the list alone, and 1 only when
      the variable already has the value. */
  lemma AssignIsUpdate(es: seq<Entry>, name: string, value: string, exported: int)
    requires Inv(es)
    ensures var (es', code) := Assign(es, name, value, exported);
            && (code == -1 <==> name == "HUSH_VERSION" && value != "0.01")
            && (code == -1 ==> es' == es)
            && (code != -1 ==> AsMap(es') == AsMap(es)[name := value])
            && (code == 1 ==> es' == es && name in AsMap(es) && AsMap(es)[name] == value)
  {
    hide Find, AsMap;
    var k := Find(es, name);
    FindIs(es, es[0].name, 0);
    if k == |es| {
      AppendMap(es, Entry(name, value, exported, false));
    } else {
      var es' := Assign(es, name, value, exported).0;
      UpdateMap(es, k, es'[k]);
      assert es' == es[k := es'[k]];
    }
  }

  /** Unsetting a variable removes it from the map and touches no other; HUSH_VERSION stays. */
  lemma RemoveIsRemoval(es: seq<Entry>, name: string)
    requires Inv(es)
    ensures AsMap(Remove(es, name)) == if name == "HUSH_VERSION" then AsMap(es) else AsMap(es) - {name}
  {
    hide Find, AsMap;
    var k := Find(es, name);
    FindIs(es, es[0].name, 0);
    if k < |es| { DropMap(es, k); } else { assert name !in AsMap(es); }
  }

  /** `$?` is answered from the last return code, every other `$` name is unset. */
  function DollarVar(s: string, last: nat): (r: Option<string>)
    requires s != "" && s[0] == '$'
  {
    if |s| > 1 && s[1] == '?' then Some(Decimal(last)) else None
  }

  function Decimal(n: nat): (s: string) {
    if n < 10 then [('0' as int + n) as char] else Decimal(n / 10) + [('0' as int + n % 10) as char]
  }

  predicate IsAlpha(c: char) { 'a' <= c <= 'z' || 'A' <= c <= 'Z' }

  // The linked list

  class Variable {
    var name: string
    var value: string
    var exported: int
    var readOnly: bool
    var next: Variable?

    constructor (name: string, value: string, exported: int, readOnly: bool)
      ensures this.name == name && this.value == value && this.exported == exported && this.readOnly == readOnly
      ensures next == null
    {
      this.name, this.value, this.exported, this.readOnly, this.next := name, value, exported, readOnly, null;
    }
  }

  class Variables {
    var top: Variable
    ghost var nodes: seq<Variable>

    /** `nodes` is the chain from `top`. */
    ghost predicate Linked()
      reads this, nodes
    {
      && nodes != [] && nodes[0] == top
      && (forall i, j :: 0 <= i < j < |nodes| ==> nodes[i] != nodes[j])
      && (forall i {:trigger nodes[i].next} :: 0 <= i < |nodes| ==> nodes[i].next == NodeAt(i + 1))
    }

    ghost function NodeAt(k: nat): (n: Variable?)
      reads this
    {
      if k < |nodes| then nodes[k] else null
    }

    ghost function Entries(): (es: seq<Entry>)
      reads this, nodes
    {
      seq(|nodes|, i requires 0 <= i < |nodes| reads this, nodes =>
        Entry(nodes[i].name, nodes[i].value, nodes[i].exported, nodes[i].readOnly))
    }

    ghost predicate Valid()
      reads this, nodes
    {
      Linked() && Inv(Entries())
    }

    constructor ()
      ensures Valid() && Entries() == [Entry("HUSH_VERSION", "0.01", 0, true)]
      ensures fresh(nodes)
    {
      top := new Variable("HUSH_VERSION", "0.01", 0, true);
      new;
      nodes := [top];
    }

    method FindNode(name: string) returns (cur: Variable?, ghost k: nat)
      requires Valid()
      ensures k == Find(Entries(), name)
      ensures cur == NodeAt(k)
    {
      cur, k := top, 0;
      while cur != null && cur.name != name
        invariant k <= |nodes| && cur == NodeAt(k)
        invariant forall i :: 0 <= i < k ==> Entries()[i].name != name
        decreases |nodes| - k
      {
        cur, k := cur.next, k + 1;
      }
      FindIs(Entries(), name, k);
    }

    method Get(s: string, last: nat) returns (r: Option<string>)
      requires Valid()
      ensures r == if s != "" && s[0] == '$' then DollarVar(s, last)
                   else if s in AsMap(Entries()) then Some(AsMap(Entries())[s]) else None
    {
      if s != "" && s[0] == '$' { return DollarVar(s, last); }
      var cur, _ := FindNode(s);
      if cur == null { return None; }
      return Some(cur.value);
    }

    /** `s` has the form NAME=VALUE, as every caller makes sure; without a '=' the C code
        writes through a null pointer. The environment is asked for the whole of `s`. */
    method Set(s: string, exported: int, env: set<string>) returns (result: int)
      requires Valid() && '=' in s
      modifies this, nodes
      ensures Valid() && fresh(set n | n in nodes && n !in old(nodes))
      ensures !IsAlpha(s[0]) || s in env ==> result == -1 && Entries() == old(Entries())
      ensures IsAlpha(s[0]) && s !in env ==>
                var eq := IndexOf(s, '=');
                (Entries(), result) == Assign(old(Entries()), s[..eq], s[eq + 1..], exported)
    {
      hide Find, IndexOf;
      if !IsAlpha(s[0]) { return -1; }
      if s in env { return -1; }
      var eq := IndexOf(s, '=');
      var name, value := s[..eq], s[eq + 1..];
      var cur, k := FindNode(name);
      assert cur != null ==> cur.name == Entries()[k].name == name;
      result := 0;
      if cur != null {
        result := Change(cur, k, value, exported);
      } else {
        Append(name, value, exported);
      }
    }

    method Change(cur: Variable, ghost k: nat, value: string, exported: int) returns (result: int)
      requires Valid() && cur == NodeAt(k) && Find(Entries(), cur.name) == k
      modifies nodes
      ensures Valid() && (Entries(), result) == Assign(old(Entries()), old(cur.name), value, exported)
    {
      hide Find;
      result := 0;
      if cur.value == value {
        if exported > 0 && cur.exported == 0 { cur.exported := exported; } else { result := 1; }
      } else if cur.readOnly {
        result := -1;
      } else {
        if exported > 0 || cur.exported > 1 { cur.exported := 1; }
        cur.value := value;
      }
      assert Entries() == Assign(old(Entries()), old(cur.name), value, exported).0;
    }

    method Append(name: string, value: string, exported: int)
      requires Valid() && Find(Entries(), name) == |nodes|
      modifies this, nodes
      ensures Valid() && fresh(set n | n in nodes && n !in old(nodes))
      ensures Entries() == old(Entries()) + [Entry(name, value, exported, false)]
    {
      var v := new Variable(name, value, exported, false);
      var bottom := top;
      ghost var i: nat := 0;
      while bottom.next != null
        invariant i < |nodes| && bottom == nodes[i]
        decreases |nodes| - i
      {
        bottom, i := bottom.next, i + 1;
      }
      bottom.next := v;
      nodes := nodes + [v];
      assert Entries() == old(Entries()) + [Entry(name, value, exported, false)];
    }

    /** The predecessor search ends because the node to be removed is not the first one. */
    method Unset(name: string)
      requires Valid()
      modifies this, nodes
      ensures Valid() && Entries() == Remove(old(Entries()), name)
    {
      hide Find;
      var cur, k := FindNode(name);
      if cur == null { return; }
      assert cur.readOnly == Entries()[k].readOnly;
      if cur.readOnly { return; }
      var prev := top;
      ghost var i: nat := 0;
      while prev.next != cur
        invariant i < k && prev == nodes[i]
        decreases k - i
      {
        prev, i := prev.next, i + 1;
      }
      Unlink(prev, cur, k);
    }

    method Unlink(prev: Variable, cur: Variable, ghost k: nat)
      requires Valid() && 0 < k < |nodes| && cur == nodes[k] && prev == nodes[k - 1]
      modifies this, nodes
      ensures Valid() && Entries() == old(Entries()[..k] + Entries()[k + 1..])
    {
      prev.next := cur.next;
      nodes := nodes[..k] + nodes[k + 1..];
      assert Entries() == old(Entries()[..k] + Entries()[k + 1..]);
    }
  }
}
