/**
 * The filter strings GetReaderOFNFilters and GetWriterSFNFilters build for
 * the Windows open and save file dialogs. Every registered format
 * contributes "description|*.extension|"; the text is then copied into a
 * fresh NUL-filled buffer one longer than the text, and every '|' in the
 * buffer becomes NUL. The dialog reads the result as pairs of NUL-terminated
 * strings (a label, then a pattern) ended by an empty string.
 */
module DialogFilters {
  import opened PluginRegistry

  /** The text one format contributes to the filter string. */
  function Entry(f: FormatPlugin): string
  {
    f.description + "|*." + f.extension + "|"
  }

  /** The filter string: the entries of all formats, in registry order. */
  function FilterString(formats: seq<FormatPlugin>): (r: string)
    ensures '\0' !in r
    ensures r == [] || r[|r| - 1] == '|'
  {
    if formats == [] then ""
    else FilterString(formats[..|formats| - 1]) + Entry(formats[|formats| - 1])
  }

  /** The text with each '|' replaced by NUL and every other character unchanged. */
  function Blanked(s: string): (r: string)
  {
    seq(|s|, i requires 0 <= i < |s| => if s[i] == '|' then '\0' else s[i])
  }

  /** The buffer the filter string becomes: the blanked text, then the terminating NUL. */
  function Separated(s: string): (r: string)
  {
    Blanked(s) + ['\0']
  }

  /** The labels and patterns the dialog shows, in order: each description, then "*." and its extension. */
  function Labels(formats: seq<FormatPlugin>): (r: seq<string>)
    ensures |r| == 2 * |formats|
  {
    if formats == [] then []
    else
      var last := formats[|formats| - 1];
      Labels(formats[..|formats| - 1]) + [last.description, "*." + last.extension]
  }

  /** The position of the first NUL in `buf`, or |buf| when there is none. */
  function NulAt(buf: string): (i: nat)
    ensures i <= |buf|
    ensures i < |buf| ==> buf[i] == '\0'
    ensures '\0' !in buf[..i]
  {
    if buf == [] || buf[0] == '\0' then 0
    else
      var i := 1 + NulAt(buf[1..]);
      assert buf[..i] == [buf[0]] + buf[1..][..i - 1];
      i
  }

  /**
   * How the dialog reads a buffer: the NUL-terminated strings it holds, in
   * order (text after the last NUL is not a string).
   */
  function Fields(buf: string): seq<string>
    decreases |buf|
  {
    var i := NulAt(buf);
    if i == |buf| then [] else [buf[..i]] + Fields(buf[i + 1..])
  }

  /** Builds the filter string with the source's loop over the formats. */
  method BuildFilterString(formats: seq<FormatPlugin>) returns (s: string)
    ensures s == FilterString(formats)
  {
    s := "";
    var i := 0;
    while i < |formats|
      invariant 0 <= i <= |formats|
      invariant s == FilterString(formats[..i])
    {
      assert formats[..i + 1][..i] == formats[..i];
      s := s + formats[i].description;
      s := s + "|*.";
      s := s + formats[i].extension;
      s := s + "|";
      i := i + 1;
    }
    assert formats[..i] == formats;
  }

  /**
   * Copies the filter string into a fresh buffer of strlen + 1 NULs and
   * overwrites each '|' with NUL, in place.
   */
  method SeparateInPlace(s: string) returns (filter: array<char>)
    requires '\0' !in s
    ensures fresh(filter)
    ensures filter[..] == Separated(s)
  {
    var count := |s| + 1;
    filter := new char[count](_ => '\0');
    var i := 0;
    while i < |s|
      invariant 0 <= i <= |s|
      invariant forall j :: 0 <= j < i ==> filter[j] == s[j]
      invariant forall j :: i <= j < count ==> filter[j] == '\0'
    {
      filter[i] := s[i];
      i := i + 1;
    }
    i := 0;
    while i < |s|
      invariant 0 <= i <= |s|
      invariant forall j :: 0 <= j < i ==> filter[j] == (if s[j] == '|' then '\0' else s[j])
      invariant forall j :: i <= j < |s| ==> filter[j] == s[j]
      invariant filter[|s|] == '\0'
    {
      if filter[i] == '|' {
        filter[i] := '\0';
      }
      i := i + 1;
    }
  }

  /** GetReaderOFNFilters: the open-dialog filter buffer for the registry's reader formats. */
  method ReaderOpenFilters(registry: Registry) returns (filter: array<char>)
    ensures fresh(filter)
    ensures filter[..] == Separated(FilterString(registry.readers))
  {
    var s := BuildFilterString(registry.readers);
    filter := SeparateInPlace(s);
  }

  /** GetWriterSFNFilters: the save-dialog filter buffer for the registry's writer formats. */
  method WriterSaveFilters(registry: Registry) returns (filter: array<char>)
    ensures fresh(filter)
    ensures filter[..] == Separated(FilterString(registry.writers))
  {
    var s := BuildFilterString(registry.writers);
    filter := SeparateInPlace(s);
  }

  /** No '|' inside a description or extension, so each one stays a single dialog string. */
  predicate Unbarred(formats: seq<FormatPlugin>)
  {
    forall k :: 0 <= k < |formats| ==> '|' !in formats[k].description && '|' !in formats[k].extension
  }

  lemma BlankedAppend(a: string, b: string)
    ensures Blanked(a + b) == Blanked(a) + Blanked(b)
  {
  }

  /** A buffer with a NUL reads as the text before its first NUL, then the strings after it. */
  lemma FieldsUnfold(buf: string)
    requires NulAt(buf) < |buf|
    ensures Fields(buf) == [buf[..NulAt(buf)]] + Fields(buf[NulAt(buf) + 1..])
  {
  }

  /** A NUL with none before it is the first NUL. */
  lemma {:induction false} NulAtIs(buf: string, i: nat)
    requires i < |buf| && buf[i] == '\0' && '\0' !in buf[..i]
    ensures NulAt(buf) == i
  {
    if i > 0 {
      assert buf[0] == buf[..i][0];
      assert buf[1..][..i - 1] == buf[..i][1..];
      NulAtIs(buf[1..], i - 1);
    }
  }

  /** The first NUL of a buffer that has one is also the first NUL of any extension of it. */
  lemma NulAtExtended(a: string, b: string)
    requires NulAt(a) < |a|
    ensures NulAt(a + b) == NulAt(a)
    ensures (a + b)[..NulAt(a)] == a[..NulAt(a)]
    ensures (a + b)[NulAt(a) + 1..] == a[NulAt(a) + 1..] + b
  {
    var i := NulAt(a);
    assert (a + b)[..i] == a[..i];
    NulAtIs(a + b, i);
  }

  /** A NUL-free text followed by NUL is read as that one string, then whatever follows. */
  lemma FieldsAfterString(x: string, rest: string)
    requires '\0' !in x
    ensures Fields(x + ['\0'] + rest) == [x] + Fields(rest)
  {
    var buf := x + ['\0'] + rest;
    assert buf[..|x|] == x;
    NulAtIs(buf, |x|);
    assert buf[|x| + 1..] == rest;
  }

  lemma ConcatAssociates<T>(p: seq<T>, q: seq<T>, r: seq<T>)
    ensures p + (q + r) == (p + q) + r
  {
  }

  /** A buffer that ends in NUL splits into the strings of its two parts. */
  lemma {:induction false} FieldsConcat(a: string, b: string)
    requires a == [] || a[|a| - 1] == '\0'
    ensures Fields(a + b) == Fields(a) + Fields(b)
    decreases |a|
  {
    if a == [] {
      assert a + b == b;
    } else {
      var i := NulAt(a);
      var x, tail := a[..i], a[i + 1..];
      NulAtExtended(a, b);
      FieldsUnfold(a);
      FieldsUnfold(a + b);
      FieldsConcat(tail, b);
      var fa, ft, fb := Fields(a), Fields(tail), Fields(b);
      assert fa == [x] + ft;
      assert Fields(a + b) == [x] + (ft + fb);
      ConcatAssociates([x], ft, fb);
    }
  }

  /** One format's entry, blanked, is its label and its pattern, each NUL-terminated. */
  lemma EntryFields(f: FormatPlugin)
    requires '|' !in f.description && '|' !in f.extension
    ensures Blanked(Entry(f)) == f.description + ['\0'] + ("*." + f.extension + ['\0'])
    ensures Fields(Blanked(Entry(f))) == [f.description, "*." + f.extension]
  {
    var pattern := "*." + f.extension;
    assert Blanked(Entry(f)) == f.description + ['\0'] + (pattern + ['\0']);
    assert '\0' !in pattern by {
      forall j | 0 <= j < |pattern| ensures pattern[j] != '\0' {
        if j >= 2 {
          assert pattern[j] == f.extension[j - 2];
        }
      }
    }
    FieldsAfterString(f.description, pattern + ['\0']);
    assert pattern + ['\0'] == pattern + ['\0'] + [];
    FieldsAfterString(pattern, []);
  }

  /** The blanked filter string reads as the labels and patterns of all formats, in order. */
  lemma {:induction false} FilterFields(formats: seq<FormatPlugin>)
    requires Unbarred(formats)
    ensures Fields(Blanked(FilterString(formats))) == Labels(formats)
  {
    if formats != [] {
      var front, last := formats[..|formats| - 1], formats[|formats| - 1];
      assert Unbarred(front) by {
        forall k | 0 <= k < |front| ensures '|' !in front[k].description && '|' !in front[k].extension {
          assert front[k] == formats[k];
        }
      }
      FilterFields(front);
      BlankedAppend(FilterString(front), Entry(last));
      EntryFields(last);
      FieldsConcat(Blanked(FilterString(front)), Blanked(Entry(last)));
    }
  }

  /**
   * The buffer both filter builders return is what the dialog expects: for
   * every format its description and its "*.ext" pattern, in registry order,
   * and then the empty string that ends the list.
   */
  lemma DialogSeesFormats(formats: seq<FormatPlugin>)
    requires Unbarred(formats)
    ensures Fields(Separated(FilterString(formats))) == Labels(formats) + [""]
  {
    var text := Blanked(FilterString(formats));
    FilterFields(formats);
    FieldsConcat(text, ['\0']);
    assert ['\0'] == [] + ['\0'] + [];
    FieldsAfterString([], []);
  }
}
