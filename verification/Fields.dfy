/** Named values grouped by name, as the WAF receives them. */
module Fields {
  import opened Octets

  datatype Part = Part(name: Text, content: Text)

  /** One string is stored as such, several as an array. */
  datatype Field = One(text: Text) | Many(texts: seq<Text>)

  /** The contents given under a name, in order. */
  function Values(parts: seq<Part>, name: Text): seq<Text> {
    if parts == [] then []
    else (if parts[0].name == name then [parts[0].content] else []) + Values(parts[1..], name)
  }

  function AsField(values: seq<Text>): Field {
    if |values| == 1 then One(values[0]) else Many(values)
  }

  lemma {:induction false} ValuesOfNames(parts: seq<Part>, name: Text)
    ensures Values(parts, name) != [] <==> exists i :: 0 <= i < |parts| && parts[i].name == name
  {
    if parts != [] {
      ValuesOfNames(parts[1..], name);
      assert forall i :: 1 <= i < |parts| ==> parts[1..][i - 1] == parts[i];
      if exists i :: 0 <= i < |parts| && parts[i].name == name {
        var i :| 0 <= i < |parts| && parts[i].name == name;
        assert i > 0 ==> parts[1..][i - 1].name == name;
      }
    }
  }

  // ------------------------------------------------------------------ grouping one by one

  type Groups = map<Text, seq<Text>>

  function Of(g: Groups, name: Text): seq<Text> { if name in g then g[name] else [] }

  function Added(g: Groups, p: Part): Groups { g[p.name := Of(g, p.name) + [p.content]] }

  /** The groups when these parts have been added. */
  function Absorbed(g: Groups, parts: seq<Part>): Groups
    decreases |parts|
  {
    if parts == [] then g else Absorbed(Added(g, parts[0]), parts[1..])
  }

  lemma {:induction false} AbsorbedIsValues(g: Groups, parts: seq<Part>, name: Text)
    ensures Of(Absorbed(g, parts), name) == Of(g, name) + Values(parts, name)
    ensures name in Absorbed(g, parts) <==> name in g || Values(parts, name) != []
    decreases |parts|
  {
    if parts != [] {
      AbsorbedIsValues(Added(g, parts[0]), parts[1..], name);
      ContentsRegroup(Of(g, name), if parts[0].name == name then [parts[0].content] else [], Values(parts[1..], name));
    }
  }

  lemma ContentsRegroup(a: seq<Text>, b: seq<Text>, c: seq<Text>)
    ensures a + (b + c) == (a + b) + c && a + [] == a
  {
  }

  /** Each name with its values in order, and no other name. */
  ghost predicate Grouped(fields: map<Text, Field>, all: seq<Part>) {
    && (forall name :: name in fields <==> Values(all, name) != [])
    && (forall name :: name in fields ==> fields[name] == AsField(Values(all, name)))
  }

  lemma AbsorbedIsGrouped(g: Groups, all: seq<Part>)
    requires g == Absorbed(map[], all)
    ensures Grouped(map name | name in g :: AsField(g[name]), all)
    ensures g == map[] <==> all == []
  {
    forall name ensures name in g <==> Values(all, name) != [] {
      AbsorbedIsValues(map[], all, name);
    }
    forall name | name in g ensures g[name] == Values(all, name) {
      AbsorbedIsValues(map[], all, name);
    }
    if all != [] {
      assert Values(all, all[0].name) != [];
    }
  }
}
