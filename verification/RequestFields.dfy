/** The collection of request fields as inventory_request.go does it: a walk that appends to
    one list. */
module RequestFields {
  import opened Json
  import opened Ordering
  import opened RequestFieldSpec
  import opened Text

  class Collector {
    var found: seq<FieldInfo>

    constructor ()
      ensures found == []
    {
      found := [];
    }

    method Summarize(path: string, required: bool, schema: Schema) returns (f: FieldInfo)
      ensures f == Describe(path, required, schema)
    {
      hide StringSlice, StringValue, Join;
      var typ := StringValue(Get(schema, "type"));
      if typ == "" {
        var values := ReadStringSlice(Get(schema, "type"));
        typ := Join(values, "|");
      }
      f := FieldInfo(path, required, typ, StringValue(Get(schema, "format")), StringValue(Get(schema, "$ref")),
                     StringValue(Get(schema, "description")));
    }

    /** collectRequestFields */
    method CollectFields(schema: Schema, path: string, required: bool, depth: nat)
      modifies this
      ensures found == Collect(schema, path, required, depth, old(found))
      decreases MAX_FIELD_DEPTH + 1 - depth, 1
    {
      hide IsCredential, Describe, StringSlice, CollectEach, SortedSet;
      if |found| >= MAX_FIELDS || depth > MAX_FIELD_DEPTH {
        return;
      }
      if schema == map[] {
        if path != "" && !IsCredential(path) {
          found := found + [FieldInfo(path, required, "", "", "", "")];
        }
        return;
      }
      if path != "" && !IsCredential(path) {
        var f := Summarize(path, required, schema);
        found := found + [f];
        if |found| >= MAX_FIELDS || depth == MAX_FIELD_DEPTH {
          return;
        }
      }
      var properties := MapValue(Get(schema, "properties"));
      if properties != map[] {
        var needed := ReadStringSlice(Get(schema, "required"));
        var names := SortStrings(properties.Keys);
        CollectProperties(names, properties, needed, path, required, depth);
        return;
      }
      var items := MapValue(Get(schema, "items"));
      if items != map[] {
        CollectFields(items, ItemPath(path), required, depth + 1);
      }
    }

    /** The loop over the property names. */
    method CollectProperties(names: seq<string>, properties: Schema, needed: seq<string>, path: string,
                             required: bool, depth: nat)
      requires depth <= MAX_FIELD_DEPTH
      modifies this
      ensures found == CollectEach(names, properties, needed, path, required, depth, old(found))
      decreases MAX_FIELD_DEPTH + 1 - depth, 0
    {
      hide Collect;
      for i := 0 to |names|
        invariant CollectEach(names, properties, needed, path, required, depth, old(found))
               == CollectEach(names[i..], properties, needed, path, required, depth, found)
      {
        assert names[i..][1..] == names[i + 1..];
        var name := names[i];
        CollectFields(MapValue(Get(properties, name)), ChildPath(path, name), required && name in needed, depth + 1);
        if |found| >= MAX_FIELDS {
          return;
        }
      }
    }
  }

  /** requestFieldSummaries */
  method RequestFieldSummaries(schema: Schema, path: string, required: bool, depth: nat) returns (out: seq<FieldInfo>)
    ensures out == Summaries(schema, path, required, depth)
  {
    hide Collect;
    var c := new Collector();
    c.CollectFields(schema, path, required, depth);
    out := SortBy(PathKey, c.found);
    if |out| > MAX_FIELDS {
      out := out[..MAX_FIELDS];
    }
  }
}
