/**
 * How the stdio and Lua modules print a record they are handed: the
 * step's `format` parameter (default `%R`) with `%R` replaced by the content
 * and then `%M` by the metadata line `name = value, name = value, ...`.
 * Decoding the content bytes to text is a parameter.
 */
module Render {
  import opened Wrappers
  import opened Typedefs
  import opened Strings
  import opened Params

  const DefaultFormat: string := "%R"
  const ContentMarker: string := "%R"
  const MetadataMarker: string := "%M"

  /** One metadata item as printed. */
  function MetaItem(p: MetaPair): string { p.name + " = " + p.value }

  function MetaItems(md: seq<MetaPair>): (items: seq<string>)
    ensures |items| == |md|
    ensures forall i :: 0 <= i < |md| ==> items[i] == MetaItem(md[i])
  {
    seq(|md|, i requires 0 <= i < |md| => MetaItem(md[i]))
  }

  /** The metadata line: every pair in array order, duplicates included. */
  function MetadataLine(md: seq<MetaPair>): string {
    Join(MetaItems(md), ", ")
  }

  /** The line grows by `, name = value` for each further pair; one pair prints alone, none prints nothing. */
  lemma MetadataLineSnoc(md: seq<MetaPair>, p: MetaPair)
    ensures MetadataLine([]) == ""
    ensures MetadataLine([p]) == p.name + " = " + p.value
    ensures |md| > 0 ==> MetadataLine(md + [p]) == MetadataLine(md) + ", " + p.name + " = " + p.value
  {
    assert MetaItems([p]) == [MetaItem(p)];
    if |md| > 0 {
      assert MetaItems(md + [p]) == MetaItems(md) + [MetaItem(p)];
      JoinSnoc(MetaItems(md), MetaItem(p), ", ");
    }
  }

  /** Substitution of the two markers into the format, content first. */
  function Format(format: Option<string>, content: string, line: string): string {
    ReplaceAllSpec(ReplaceAllSpec(format.GetOr(DefaultFormat), ContentMarker, content), MetadataMarker, line)
  }

  /** A string without a `%` holds no marker anywhere. */
  lemma NoPercentNoMarker(s: string, marker: string, j: nat)
    requires |marker| > 0 && marker[0] == '%'
    requires '%' !in s
    ensures !OccursAt(s, marker, j)
  {
  }

  /**
   * A format with `%` only in one `%R` prints its literal text around the
   * content, whatever the metadata, as long as the content holds no `%`.
   */
  lemma PlainFormatFrame(a: string, b: string, content: string, line: string)
    requires '%' !in a && '%' !in b && '%' !in content
    ensures Format(Some(a + ContentMarker + b), content, line) == a + content + b
  {
    var f := a + ContentMarker + b;
    assert f[|a|..|a| + 2] == ContentMarker;
    forall k | 0 <= k < |a|
      ensures !OccursAt(f, ContentMarker, k)
    {
      assert f[k] == a[k] != '%';
      assert f[k..k + 2][0] == f[k];
    }
    ReplaceAllAtFirst(f, ContentMarker, content, |a|);
    assert f[..|a|] == a;
    assert f[|a| + 2..] == b;
    forall j: nat
      ensures !OccursAt(b, ContentMarker, j)
    {
      NoPercentNoMarker(b, ContentMarker, j);
    }
    ReplaceAllAbsent(b, ContentMarker, content);
    var g := a + content + b;
    assert '%' !in g by {
      forall i | 0 <= i < |g|
        ensures g[i] != '%'
      {
        if i < |a| { assert g[i] == a[i]; }
        else if i < |a| + |content| { assert g[i] == content[i - |a|]; }
        else { assert g[i] == b[i - |a| - |content|]; }
      }
    }
    forall j: nat
      ensures !OccursAt(g, MetadataMarker, j)
    {
      NoPercentNoMarker(g, MetadataMarker, j);
    }
    ReplaceAllAbsent(g, MetadataMarker, line);
  }

  /** The default format prints the content unchanged when it holds no `%M`. */
  lemma DefaultFormatPrintsContent(content: string, line: string)
    requires forall j :: 0 <= j ==> !OccursAt(content, MetadataMarker, j)
    ensures Format(None, content, line) == content
  {
    assert OccursAt(DefaultFormat, ContentMarker, 0);
    assert DefaultFormat[2..] == [];
    assert ReplaceAllSpec(DefaultFormat, ContentMarker, content) == content + ReplaceAllSpec([], ContentMarker, content);
    assert content + [] == content;
    ReplaceAllAbsent(content, MetadataMarker, line);
  }

  /**
   * The metadata is substituted after the content, so a `%M` inside the
   * content is replaced too: with the default format, content `%M` prints
   * the metadata line.
   */
  lemma ContentMarkerExpanded(line: string)
    ensures Format(None, MetadataMarker, line) == line
  {
    assert OccursAt(DefaultFormat, ContentMarker, 0);
    assert DefaultFormat[2..] == [];
    assert ReplaceAllSpec(DefaultFormat, ContentMarker, MetadataMarker) == MetadataMarker + ReplaceAllSpec([], ContentMarker, MetadataMarker);
    assert MetadataMarker + [] == MetadataMarker;
    assert OccursAt(MetadataMarker, MetadataMarker, 0);
    assert MetadataMarker[2..] == [];
    assert ReplaceAllSpec(MetadataMarker, MetadataMarker, line) == line + ReplaceAllSpec([], MetadataMarker, line);
    assert line + [] == line;
  }

  /**
   * process_record of the stdio and Lua modules: the record is printed,
   * followed by a line break, through the `format` parameter of the handle
   * it was addressed to; the result is `None`.
   */
  function ProcessRecord(store: ParamStore, h: Handle, rec: Record, decode: seq<Byte> -> string): (r: (string, ProcessResult))
    ensures r.1 == ProcessNone
    ensures |r.0| > 0 && r.0[|r.0| - 1] == '\n'
    ensures r.0 == Format(GetParam(store, h, "format"), decode(rec.content), MetadataLine(rec.metadata)) + "\n"
  {
    (Format(GetParam(store, h, "format"), decode(rec.content), MetadataLine(rec.metadata)) + "\n", ProcessNone)
  }

  /** Without a `format` parameter the content is printed as it is, unless it holds a `%M`. */
  lemma ProcessRecordDefault(store: ParamStore, h: Handle, rec: Record, decode: seq<Byte> -> string)
    requires GetParam(store, h, "format").None?
    requires forall j :: 0 <= j ==> !OccursAt(decode(rec.content), MetadataMarker, j)
    ensures ProcessRecord(store, h, rec, decode).0 == decode(rec.content) + "\n"
  {
    DefaultFormatPrintsContent(decode(rec.content), MetadataLine(rec.metadata));
  }

  /** A plain `format` parameter around one `%R` prints its text around content free of `%`, whatever the metadata. */
  lemma ProcessRecordPlainFormat(store: ParamStore, h: Handle, rec: Record, decode: seq<Byte> -> string,
                                 a: string, b: string)
    requires GetParam(store, h, "format") == Some(a + ContentMarker + b)
    requires '%' !in a && '%' !in b && '%' !in decode(rec.content)
    ensures ProcessRecord(store, h, rec, decode).0 == a + decode(rec.content) + b + "\n"
  {
    PlainFormatFrame(a, b, decode(rec.content), MetadataLine(rec.metadata));
  }
}
