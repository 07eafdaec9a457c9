/** Name normalisation used when generating the Cabal package description
    (src/cabal.rs, lines 14-15). A crate name is turned into two names,
    each by a per-character replacement applied to the ORIGINAL name. */
module Names {

  /** Every occurrence of `from` in `s` replaced by `to`: the effect of Rust's
      `str::replace` when the pattern is one character and the replacement a
      one-character string. */
  function ReplaceChar(s: string, from: char, to: char): (r: string)
    ensures |r| == |s|
    ensures forall i :: 0 <= i < |s| ==> r[i] == (if s[i] == from then to else s[i])
    decreases |s|
  {
    if s == [] then [] else [if s[0] == from then to else s[0]] + ReplaceChar(s[1..], from, to)
  }

  /** The library name Cargo gives the compiled crate: `-` becomes `_`. */
  function LibName(name: string): (r: string)
    ensures |r| == |name| && '-' !in r
    ensures forall i :: 0 <= i < |name| && name[i] == '-' ==> r[i] == '_'
    ensures forall i :: 0 <= i < |name| && name[i] != '-' ==> r[i] == name[i]
  {
    ReplaceChar(name, '-', '_')
  }

  /** The Cabal package name: `_` becomes `-`. */
  function PackageName(name: string): (r: string)
    ensures |r| == |name| && '_' !in r
    ensures forall i :: 0 <= i < |name| && name[i] == '_' ==> r[i] == '-'
    ensures forall i :: 0 <= i < |name| && name[i] != '_' ==> r[i] == name[i]
  {
    ReplaceChar(name, '_', '-')
  }

  /** Replacing a character twice changes nothing the first pass did not. */
  lemma {:induction false} ReplaceCharIdempotent(s: string, from: char, to: char)
    ensures ReplaceChar(ReplaceChar(s, from, to), from, to) == ReplaceChar(s, from, to)
    decreases |s|
  {
    if s != [] {
      ReplaceCharIdempotent(s[1..], from, to);
      var once := ReplaceChar(s, from, to);
      assert once == [once[0]] + ReplaceChar(s[1..], from, to);
      assert once[1..] == ReplaceChar(s[1..], from, to);
    }
  }

  lemma LibNameIdempotent(name: string)
    ensures LibName(LibName(name)) == LibName(name)
  {
    ReplaceCharIdempotent(name, '-', '_');
  }

  lemma PackageNameIdempotent(name: string)
    ensures PackageName(PackageName(name)) == PackageName(name)
  {
    ReplaceCharIdempotent(name, '_', '-');
  }

  /** Whichever normalisation runs first, the other one erases its effect:
      both names depend only on the name up to the choice of separator. */
  lemma {:induction false} NormalisationsAbsorb(name: string)
    ensures PackageName(LibName(name)) == PackageName(name)
    ensures LibName(PackageName(name)) == LibName(name)
    decreases |name|
  {
    if name != [] {
      NormalisationsAbsorb(name[1..]);
      assert LibName(name)[1..] == LibName(name[1..]);
      assert PackageName(name)[1..] == PackageName(name[1..]);
      assert PackageName(LibName(name)) == [PackageName(LibName(name))[0]] + PackageName(LibName(name[1..]));
      assert LibName(PackageName(name)) == [LibName(PackageName(name))[0]] + LibName(PackageName(name[1..]));
    }
  }

  /** The two names differ exactly at the separator positions of `name`. */
  lemma NamesDifferAtSeparators(name: string)
    ensures |LibName(name)| == |PackageName(name)| == |name|
    ensures forall i :: 0 <= i < |name| ==>
      (LibName(name)[i] != PackageName(name)[i] <==> name[i] == '-' || name[i] == '_')
  {
  }

  /** The two names coincide iff `name` holds neither separator. */
  lemma NamesAgreeIffNoSeparator(name: string)
    ensures LibName(name) == PackageName(name) <==> '-' !in name && '_' !in name
  {
    NamesDifferAtSeparators(name);
    if LibName(name) == PackageName(name) {
      forall i | 0 <= i < |name| ensures name[i] != '-' && name[i] != '_' {
        assert LibName(name)[i] == PackageName(name)[i];
      }
    }
  }

  /** A name holding both separators: the names are computed independently
      from the original, so they differ. */
  lemma MixedSeparatorsExample()
    ensures LibName("a-b_c") == "a_b_c"
    ensures PackageName("a-b_c") == "a-b-c"
  {
    assert LibName("a-b_c") == ReplaceChar("a-b_c", '-', '_');
  }
}
