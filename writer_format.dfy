/**
 * The writer-format choice SaveScene makes before it creates the exporter:
 * a caller-supplied format index is kept when it names a registered writer;
 * otherwise the native writer is used when media are embedded, and when they
 * are not, the first FBX writer whose description mentions "ascii".
 */
module WriterFormat {
  import opened PluginRegistry

  /** `pat` occurs in `s` starting at position `i`. */
  predicate OccursAt(s: string, pat: string, i: int)
  {
    0 <= i && i + |pat| <= |s| && s[i..i + |pat|] == pat
  }

  /** The first position at or after `from` where `pat` occurs in `s`, or -1. */
  function FindFrom(s: string, pat: string, from: nat): (r: int)
    ensures r == -1 || (from <= r && OccursAt(s, pat, r))
    ensures forall i :: from <= i && (r == -1 || i < r) ==> !OccursAt(s, pat, i)
    decreases |s| - from
  {
    if from + |pat| > |s| then -1
    else if s[from..from + |pat|] == pat then from
    else FindFrom(s, pat, from + 1)
  }

  /** FbxString::Find: the first position where `pat` occurs in `s`, or -1 when it does not occur. */
  function Find(s: string, pat: string): (r: int)
    ensures r == -1 <==> forall i :: !OccursAt(s, pat, i)
    ensures r != -1 ==> OccursAt(s, pat, r) && forall i :: 0 <= i < r ==> !OccursAt(s, pat, i)
  {
    FindFrom(s, pat, 0)
  }

  /** The writer qualifies for the ASCII fallback: it is FBX and its description contains "ascii". */
  predicate AsciiFbx(w: FormatPlugin)
  {
    w.isFbx && Find(w.description, "ascii") >= 0
  }

  /** The format index is one the registry can write. */
  predicate IsWriter(registry: Registry, format: int)
  {
    0 <= format < |registry.writers|
  }

  /**
   * The format SaveScene hands to the exporter, for a requested `format` and
   * the `embedMedia` flag.
   */
  method ChooseWriterFormat(registry: Registry, format: int, embedMedia: bool) returns (chosen: int)
    ensures IsWriter(registry, format) ==> chosen == format
    ensures !IsWriter(registry, format) && embedMedia ==> chosen == registry.nativeWriter
    ensures !IsWriter(registry, format) && !embedMedia ==>
      (IsWriter(registry, chosen) && AsciiFbx(registry.writers[chosen])
        && forall j :: 0 <= j < chosen ==> !AsciiFbx(registry.writers[j]))
      || (chosen == registry.nativeWriter
        && forall j :: 0 <= j < |registry.writers| ==> !AsciiFbx(registry.writers[j]))
    ensures IsWriter(registry, registry.nativeWriter) ==> IsWriter(registry, chosen)
  {
    chosen := format;
    if !IsWriter(registry, format) {
      chosen := registry.nativeWriter;
      if !embedMedia {
        var count := |registry.writers|;
        var i := 0;
        while i < count
          invariant 0 <= i <= count
          invariant chosen == registry.nativeWriter
          invariant forall j :: 0 <= j < i ==> !AsciiFbx(registry.writers[j])
        {
          if registry.writers[i].isFbx {
            var description := registry.writers[i].description;
            if Find(description, "ascii") >= 0 {
              chosen := i;
              break;
            }
          }
          i := i + 1;
        }
      }
    }
  }

  /** A description such as "FBX ascii (*.fbx)" is found by the "ascii" probe, at position 4. */
  lemma AsciiProbeExample()
    ensures Find("FBX ascii (*.fbx)", "ascii") == 4
  {
    var s := "FBX ascii (*.fbx)";
    assert OccursAt(s, "ascii", 4);
    forall i | 0 <= i < 4 ensures !OccursAt(s, "ascii", i) {
      assert s[i] != 'a';
    }
  }
}
