/**
 * The SKU derivation of the catalog ingestion script: the string
 * "<brand>-<model>" is lower-cased, every space and every '/' becomes '-',
 * and the result is cut to its first 120 characters, the width of the
 * `parts.sku` column.
 *
 * Only ASCII letters are lower-cased here; Python's Unicode `str.lower()` is
 * not modelled, so the model agrees with the source on ASCII input.
 */
module Sku {
  import opened Base

  /** The truncation length, equal to the `varchar(120)` width of `parts.sku`. */
  const SkuLength: nat := 120

  predicate IsUpperAscii(c: char)
  {
    'A' <= c <= 'Z'
  }

  function LowerChar(c: char): char
  {
    if IsUpperAscii(c) then (c as int + 32) as char else c
  }

  /** `str.lower()` on ASCII letters. */
  function Lower(s: string): string
  {
    if s == [] then [] else [LowerChar(s[0])] + Lower(s[1..])
  }

  /** `str.replace(target, replacement)` for one-character arguments. */
  function Replace(s: string, target: char, replacement: char): string
  {
    if s == [] then [] else [if s[0] == target then replacement else s[0]] + Replace(s[1..], target, replacement)
  }

  /** The slice `s[:n]`. */
  function Take(s: string, n: nat): string
  {
    if |s| <= n then s else s[..n]
  }

  /** `raw.lower().replace(' ', '-').replace('/', '-')[:120]`. */
  function NormalizeSku(raw: string): string
  {
    Take(Replace(Replace(Lower(raw), ' ', '-'), '/', '-'), SkuLength)
  }

  /** The SKU of a part with the given (already defaulted) brand and model. */
  function DeriveSku(brand: string, model: string): string
  {
    NormalizeSku(brand + "-" + model)
  }

  /** Reference definition: what the chain of string transforms does to one character. */
  function SkuChar(c: char): char
  {
    if c == ' ' || c == '/' then '-' else LowerChar(c)
  }

  predicate IsSkuChar(c: char)
  {
    c != ' ' && c != '/' && !IsUpperAscii(c)
  }

  lemma {:induction false} LowerPointwise(s: string)
    ensures |Lower(s)| == |s|
    ensures forall i :: 0 <= i < |s| ==> Lower(s)[i] == LowerChar(s[i])
  {
    if s != [] {
      LowerPointwise(s[1..]);
      assert forall i :: 1 <= i < |s| ==> Lower(s)[i] == Lower(s[1..])[i - 1];
    }
  }

  lemma {:induction false} ReplacePointwise(s: string, target: char, replacement: char)
    ensures |Replace(s, target, replacement)| == |s|
    ensures forall i :: 0 <= i < |s| ==> Replace(s, target, replacement)[i] == if s[i] == target then replacement else s[i]
  {
    if s != [] {
      ReplacePointwise(s[1..], target, replacement);
      assert forall i :: 1 <= i < |s| ==> Replace(s, target, replacement)[i] == Replace(s[1..], target, replacement)[i - 1];
    }
  }

  /** The normalised SKU is the first min(|raw|, 120) characters of raw, each mapped by SkuChar. */
  lemma NormalizeSkuPointwise(raw: string)
    ensures |NormalizeSku(raw)| == Min(|raw|, SkuLength)
    ensures forall i :: 0 <= i < |NormalizeSku(raw)| ==> NormalizeSku(raw)[i] == SkuChar(raw[i])
  {
    var lowered := Lower(raw);
    LowerPointwise(raw);
    var spaced := Replace(lowered, ' ', '-');
    ReplacePointwise(lowered, ' ', '-');
    ReplacePointwise(spaced, '/', '-');
  }

  /** A derived SKU fits the column and contains no space, no '/' and no upper-case ASCII letter. */
  lemma DeriveSkuShape(brand: string, model: string)
    ensures |DeriveSku(brand, model)| <= SkuLength
    ensures |DeriveSku(brand, model)| == Min(|brand| + 1 + |model|, SkuLength)
    ensures forall i :: 0 <= i < |DeriveSku(brand, model)| ==> IsSkuChar(DeriveSku(brand, model)[i])
  {
    NormalizeSkuPointwise(brand + "-" + model);
  }

  /** Normalising an existing SKU returns it unchanged. */
  lemma NormalizeSkuIdempotent(raw: string)
    ensures NormalizeSku(NormalizeSku(raw)) == NormalizeSku(raw)
  {
    var once := NormalizeSku(raw);
    NormalizeSkuPointwise(raw);
    NormalizeSkuPointwise(once);
    forall i | 0 <= i < |once|
      ensures NormalizeSku(once)[i] == once[i]
    {
      assert once[i] == SkuChar(raw[i]);
    }
  }
}
