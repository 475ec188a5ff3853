/** `capitalize` and `truncate` of src/lib/utils.ts, over ASCII case mapping. */
module Utils {
  import opened Text

  /** The first character upper-cased, the rest kept. */
  function Capitalize(s: string): (r: string)
    ensures |r| == |s|
    ensures s != "" ==> r[0] == UpperChar(s[0]) && r[1..] == s[1..]
  {
    if s == "" then "" else [UpperChar(s[0])] + Slice(s, 1, |s|)
  }

  /** Capitalizing twice is capitalizing once. */
  lemma CapitalizeIdempotent(s: string)
    ensures Capitalize(Capitalize(s)) == Capitalize(s)
  {
  }

  /** The string when it fits, otherwise its first `maxLength` characters (by `slice`) and "...". */
  function Truncate(s: string, maxLength: int): string
  {
    if |s| <= maxLength then s else Slice(s, 0, maxLength) + "..."
  }

  /** Short strings are untouched; long ones keep `maxLength` characters and gain "...". */
  lemma TruncateSpec(s: string, maxLength: nat)
    ensures |s| <= maxLength ==> Truncate(s, maxLength) == s
    ensures |s| > maxLength ==>
      Truncate(s, maxLength) == s[..maxLength] + "..." && |Truncate(s, maxLength)| == maxLength + 3
    ensures var n := if |s| < maxLength then |s| else maxLength;
      s[..n] <= Truncate(s, maxLength)
  {
  }

  /** A negative limit counts from the end, as `slice` does: all but the last `-maxLength` characters, then "...". */
  lemma TruncateNegative(s: string, maxLength: int)
    requires maxLength < 0 && |s| + maxLength >= 0
    ensures Truncate(s, maxLength) == s[..|s| + maxLength] + "..."
  {
  }
}
