/**
  The identity key of a cart line: the product slug followed by whichever of
  variant, size and color are non-empty, joined by ':'.
 */
module ItemId {
  import opened JsValues

  const Separator: char := ':'

  /** What one optional field contributes to the key: its text when truthy, nothing otherwise. */
  function Part(field: Option<string>): (part: seq<string>)
    ensures |part| <= 1
    ensures |part| == 1 <==> TruthyStr(field)
    ensures |part| == 1 ==> part[0] == field.value && part[0] != ""
  {
    if TruthyStr(field) then [field.value] else []
  }

  /** The list handed to `join`: the slug, then the truthy optional fields in fixed order. */
  function IdParts(slug: string, variant: Option<string>, size: Option<string>, color: Option<string>): seq<string>
  {
    [slug] + Part(variant) + Part(size) + Part(color)
  }

  /** The combined length of the parts. */
  function TotalLength(parts: seq<string>): nat
    decreases |parts|
  {
    if |parts| == 0 then 0 else |parts[0]| + TotalLength(parts[1..])
  }

  /**
    `parts.join(sep)`: the parts in order, one separator between each two
    neighbours: every character of every part plus n - 1 separators, and the
    first part at the front.
   */
  function Join(parts: seq<string>, sep: char): (r: string)
    ensures |parts| >= 1 ==> |r| == TotalLength(parts) + |parts| - 1
    ensures |parts| >= 1 ==> r[..|parts[0]|] == parts[0]
    decreases |parts|
  {
    if |parts| == 0 then ""
    else if |parts| == 1 then parts[0]
    else parts[0] + [sep] + Join(parts[1..], sep)
  }

  /** With separator-free parts, n parts join into a string with exactly n - 1 separators. */
  lemma {:induction false} JoinSeparatorCount(parts: seq<string>, sep: char)
    requires |parts| >= 1 && SeparatorFree(parts, sep)
    ensures multiset(Join(parts, sep))[sep] == |parts| - 1
    decreases |parts|
  {
    assert sep !in parts[0];
    if |parts| > 1 {
      assert SeparatorFree(parts[1..], sep) by {
        forall i | 0 <= i < |parts[1..]| ensures sep !in parts[1..][i] {
          assert parts[1..][i] == parts[i + 1];
        }
      }
      JoinSeparatorCount(parts[1..], sep);
    }
  }

  /** `s.split(sep)`: the maximal separator-free pieces, always at least one. */
  function Split(s: string, sep: char): (pieces: seq<string>)
    ensures |pieces| >= 1
    decreases |s|
  {
    if |s| == 0 then [""]
    else
      var rest := Split(s[1..], sep);
      if s[0] == sep then [""] + rest else [[s[0]] + rest[0]] + rest[1..]
  }

  /** `generateItemId`: the identity key derived from a product configuration. */
  function GenerateItemId(slug: string, variant: Option<string>, size: Option<string>, color: Option<string>): (id: string)
    ensures |id| >= |slug| && id[..|slug|] == slug
    ensures !TruthyStr(variant) && !TruthyStr(size) && !TruthyStr(color) ==> id == slug
  {
    Join(IdParts(slug, variant, size, color), Separator)
  }

  /** No piece of a list contains the separator. */
  predicate SeparatorFree(parts: seq<string>, sep: char) {
    forall i :: 0 <= i < |parts| ==> sep !in parts[i]
  }

  /** A separator-free string splits into itself. */
  lemma {:induction false} SplitSeparatorFree(s: string, sep: char)
    requires sep !in s
    ensures Split(s, sep) == [s]
    decreases |s|
  {
    if |s| > 0 {
      assert sep !in s[1..] by {
        forall i | 0 <= i < |s[1..]| ensures s[1..][i] != sep {
          assert s[1..][i] == s[i + 1];
        }
      }
      SplitSeparatorFree(s[1..], sep);
      assert [s[0]] + s[1..] == s;
    }
  }

  /** Splitting stops at the first separator and carries on with what follows it. */
  lemma {:induction false} SplitAtFirstSeparator(a: string, b: string, sep: char)
    requires sep !in a
    ensures Split(a + [sep] + b, sep) == [a] + Split(b, sep)
    decreases |a|
  {
    var s := a + [sep] + b;
    if |a| == 0 {
      assert s[0] == sep && s[1..] == b;
    } else {
      assert s[0] == a[0];
      assert s[1..] == a[1..] + [sep] + b;
      assert sep !in a[1..] by {
        forall i | 0 <= i < |a[1..]| ensures a[1..][i] != sep {
          assert a[1..][i] == a[i + 1];
        }
      }
      SplitAtFirstSeparator(a[1..], b, sep);
      assert [a[0]] + a[1..] == a;
    }
  }

  /** `split` undoes `join` when no piece contains the separator. */
  lemma {:induction false} SplitJoin(parts: seq<string>, sep: char)
    requires |parts| >= 1
    requires SeparatorFree(parts, sep)
    ensures Split(Join(parts, sep), sep) == parts
    decreases |parts|
  {
    if |parts| == 1 {
      SplitSeparatorFree(parts[0], sep);
    } else {
      assert sep !in parts[0];
      assert SeparatorFree(parts[1..], sep) by {
        forall i | 0 <= i < |parts[1..]| ensures sep !in parts[1..][i] {
          assert parts[1..][i] == parts[i + 1];
        }
      }
      SplitJoin(parts[1..], sep);
      SplitAtFirstSeparator(parts[0], Join(parts[1..], sep), sep);
      assert [parts[0]] + parts[1..] == parts;
    }
  }

  /**
    When no field contains ':', the key splits back into exactly the slug
    followed by the non-empty fields, in the order variant, size, color.
   */
  lemma GenerateItemIdParts(slug: string, variant: Option<string>, size: Option<string>, color: Option<string>)
    requires SeparatorFree(IdParts(slug, variant, size, color), Separator)
    ensures Split(GenerateItemId(slug, variant, size, color), Separator) == IdParts(slug, variant, size, color)
    ensures var parts := Split(GenerateItemId(slug, variant, size, color), Separator);
      && parts[0] == slug
      && |parts| == 1 + |Part(variant)| + |Part(size)| + |Part(color)|
      && (TruthyStr(variant) ==> parts[1] == variant.value)
      && (TruthyStr(color) ==> parts[|parts| - 1] == color.value)
  {
    SplitJoin(IdParts(slug, variant, size, color), Separator);
  }

  /**
    The key does not tell the fields apart: a variant and a size with the
    same text give the same key, and so does a slug that itself contains ':'.
   */
  lemma GenerateItemIdCollisions()
    ensures GenerateItemId("tee", Some("M"), None, None) == GenerateItemId("tee", None, Some("M"), None)
    ensures GenerateItemId("tee:M", None, None, None) == GenerateItemId("tee", None, None, Some("M"))
    ensures GenerateItemId("tee", Some(""), None, None) == GenerateItemId("tee", None, None, None)
  {
    assert IdParts("tee", Some("M"), None, None) == IdParts("tee", None, Some("M"), None) == ["tee", "M"];
    assert Join(["tee", "M"], Separator) == "tee:M";
    assert IdParts("tee", None, None, Some("M")) == ["tee", "M"];
    assert IdParts("tee:M", None, None, None) == ["tee:M"];
    assert IdParts("tee", Some(""), None, None) == IdParts("tee", None, None, None) == ["tee"];
  }
}
