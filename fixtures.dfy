/** Random fixture names: `stringWithCharset` and `randomNamespace`.

    The process-wide random source is replaced by an oracle: `picks[i]` is the
    value `seededRand.Intn(len(charset))` returns on the i-th iteration, so
    every pick lies in `[0, |charset|)`. Go indexes the charset by byte; the
    charsets used here are ASCII, where a byte is a character. */
module Fixtures {

  /** The alphabet `randomNamespace` draws from. */
  const Lowercase: string := "abcdefghijklmnopqrstuvwxyz"

  /** The literal every fixture namespace starts with. */
  const NamespacePrefix: string := "integration-"

  /** The number of random characters after the prefix. */
  const NamespaceSuffixLength: nat := 5

  /** Every pick is a valid index into the charset, as `Intn(len(charset))`
      guarantees. */
  predicate ValidPicks(picks: seq<nat>, charset: string)
  {
    forall i :: 0 <= i < |picks| ==> picks[i] < |charset|
  }

  /** Fills a buffer of `length` bytes, one position per loop iteration,
      position i taking the charset character selected by the i-th pick. An
      empty charset is acceptable only when nothing is drawn (`length == 0`). */
  method StringWithCharset(length: nat, charset: string, picks: seq<nat>) returns (s: string)
    requires |picks| == length
    requires ValidPicks(picks, charset)
    ensures |s| == length
    ensures forall i :: 0 <= i < |s| ==> s[i] == charset[picks[i]]
    ensures forall i :: 0 <= i < |s| ==> s[i] in charset
  {
    var b := new char[length];
    for i := 0 to length
      invariant forall k :: 0 <= k < i ==> b[k] == charset[picks[k]]
    {
      b[i] := charset[picks[i]];
    }
    s := b[..];
  }

  /** `"integration-"` followed by five lower-case letters. */
  method RandomNamespace(picks: seq<nat>) returns (ns: string)
    requires |picks| == NamespaceSuffixLength
    requires ValidPicks(picks, Lowercase)
    ensures |ns| == |NamespacePrefix| + NamespaceSuffixLength == 17
    ensures ns[..|NamespacePrefix|] == NamespacePrefix
    ensures forall i :: |NamespacePrefix| <= i < |ns| ==> 'a' <= ns[i] <= 'z'
    ensures forall i :: 0 <= i < NamespaceSuffixLength ==> ns[|NamespacePrefix| + i] == Lowercase[picks[i]]
  {
    var suffix := StringWithCharset(NamespaceSuffixLength, Lowercase, picks);
    ns := NamespacePrefix + suffix;
    forall i | |NamespacePrefix| <= i < |ns|
      ensures 'a' <= ns[i] <= 'z'
    {
      var j := i - |NamespacePrefix|;
      assert ns[i] == suffix[j];
      LowercaseLetters(picks[j]);
    }
  }

  /** Every character of the lower-case alphabet lies between 'a' and 'z'. */
  lemma LowercaseLetters(k: nat)
    requires k < |Lowercase|
    ensures 'a' <= Lowercase[k] <= 'z'
  {
  }
}
