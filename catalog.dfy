/**
 * The pure step of the range-type catalog lookup: splitting a possibly
 * schema-qualified range type name into schema and type name.
 */
module Catalog {
  /** The schema of an unqualified range type name. */
  const DefaultSchema: string := "public"

  /** The index of the first `.` in `s`, or `|s|` when there is none. */
  function FirstDot(s: string): (i: nat)
    ensures i <= |s|
    ensures forall j :: 0 <= j < i ==> s[j] != '.'
    ensures i < |s| ==> s[i] == '.'
  {
    if |s| == 0 || s[0] == '.' then 0 else 1 + FirstDot(s[1..])
  }

  /**
   * Schema and name of `pgrange`: split at the first `.` when there is one,
   * otherwise the whole name in the default schema.
   */
  function SplitTypeName(pgrange: string): (r: (string, string))
    ensures '.' !in r.0
    ensures '.' !in pgrange ==> r == (DefaultSchema, pgrange)
  {
    if '.' in pgrange then
      var i := FirstDot(pgrange);
      (pgrange[..i], pgrange[i + 1..])
    else (DefaultSchema, pgrange)
  }

  /**
   * An unqualified name lands in the default schema unchanged; a qualified one
   * is split into a dot-free schema and the rest, which rejoin to the input.
   */
  lemma SplitRejoins(pgrange: string)
    ensures '.' !in pgrange ==> SplitTypeName(pgrange) == (DefaultSchema, pgrange)
    ensures '.' in pgrange ==>
              var (schema, name) := SplitTypeName(pgrange);
              '.' !in schema && schema + "." + name == pgrange
  {
    if '.' in pgrange {
      var i := FirstDot(pgrange);
      assert pgrange[..i] + "." + pgrange[i + 1..] == pgrange[..i] + pgrange[i..];
      assert pgrange[..i] + pgrange[i..] == pgrange;
    }
  }

  /** Qualifying a dot-free schema and a name, then splitting, gives both back. */
  lemma SplitQualified(schema: string, name: string)
    requires '.' !in schema
    ensures SplitTypeName(schema + "." + name) == (schema, name)
  {
    var s := schema + "." + name;
    assert s[|schema|] == '.';
    assert forall j :: 0 <= j < |schema| ==> s[j] == schema[j];
    var i := FirstDot(s);
    assert i == |schema|;
    assert s[..i] == schema;
    assert s[i + 1..] == name;
  }

  /** A schema-qualified name from the package's tests splits at its dot. */
  lemma QualifiedExample()
    ensures SplitTypeName("pg_catalog.int4range") == ("pg_catalog", "int4range")
  {
    assert "pg_catalog.int4range" == "pg_catalog" + "." + "int4range";
    SplitQualified("pg_catalog", "int4range");
  }

  /** An unqualified name is looked up in the default schema. */
  lemma UnqualifiedExample()
    ensures SplitTypeName("intervalrange") == (DefaultSchema, "intervalrange")
  {
  }
}
