/**
 * Turning the `/api/get_data` body into the array of raw listings: the textual
 * repair pass that makes the Python-flavoured JSON parseable, and the unwrapping
 * of an object that carries the array under `listings` or `properties`.
 */
module Payload {
  import opened Wrappers
  import opened JsText
  import opened Json

  const NaNToken: string := ": NaN"
  const InfinityToken: string := ": Infinity"
  const NegInfinityToken: string := ": -Infinity"
  const NullToken: string := ": null"

  /** The three non-JSON number spellings the backend can emit after a key. */
  predicate HasNonJsonNumber(text: string) {
    Contains(text, NaNToken) || Contains(text, InfinityToken) || Contains(text, NegInfinityToken)
  }

  /**
   * The three `.replace(/…/g, ': null')` passes, in the order the page applies
   * them. Afterwards no `: NaN`, `: Infinity` or `: -Infinity` is left, not even
   * one formed by a replacement next to the surrounding text.
   */
  function Repair(text: string): (r: string)
    ensures !HasNonJsonNumber(r)
  {
    var t1 := ReplaceAll(text, NaNToken, NullToken);
    var t2 := ReplaceAll(t1, InfinityToken, NullToken);
    NullTokenIsSafe();
    ReplaceAllAbsent(text, NaNToken, NullToken, NaNToken);
    ReplaceAllAbsent(t1, InfinityToken, NullToken, NaNToken);
    ReplaceAllAbsent(t2, NegInfinityToken, NullToken, NaNToken);
    ReplaceAllAbsent(t1, InfinityToken, NullToken, InfinityToken);
    ReplaceAllAbsent(t2, NegInfinityToken, NullToken, InfinityToken);
    ReplaceAllAbsent(t2, NegInfinityToken, NullToken, NegInfinityToken);
    ReplaceAll(t2, NegInfinityToken, NullToken)
  }

  lemma NullTokenIsSafe()
    ensures SafeReplacement(NullToken, NaNToken)
    ensures SafeReplacement(NullToken, InfinityToken)
    ensures SafeReplacement(NullToken, NegInfinityToken)
  {
    assert !StartsWith(NullToken, NaNToken) by { assert NullToken[2] != NaNToken[2]; }
    assert !StartsWith(NullToken, InfinityToken) by { assert NullToken[2] != InfinityToken[2]; }
    assert !StartsWith(NullToken, NegInfinityToken) by { assert NullToken[2] != NegInfinityToken[2]; }
    assert !StartsWith(NaNToken, NullToken) by { assert NullToken[2] != NaNToken[2]; }
    assert !StartsWith(InfinityToken, NullToken) by { assert NullToken[2] != InfinityToken[2]; }
    assert !StartsWith(NegInfinityToken, NullToken) by { assert NullToken[2] != NegInfinityToken[2]; }
  }

  /** Text that is already valid in this respect passes through unchanged. */
  lemma RepairKeepsCleanText(text: string)
    requires !HasNonJsonNumber(text)
    ensures Repair(text) == text
  {
    ReplaceAllIdentity(text, NaNToken, NullToken);
    ReplaceAllIdentity(text, InfinityToken, NullToken);
    ReplaceAllIdentity(text, NegInfinityToken, NullToken);
  }

  lemma RepairIdempotent(text: string)
    ensures Repair(Repair(text)) == Repair(text)
  {
    RepairKeepsCleanText(Repair(text));
  }

  /** The three spellings the repair replaces. */
  predicate IsNonJsonNumber(x: string) {
    x == NaNToken || x == InfinityToken || x == NegInfinityToken
  }

  /** Each token is a colon, then colon-free text; they differ at index 2. */
  lemma TokenShapes()
    ensures |NaNToken| > 2 && NaNToken[0] == ':' && ':' !in NaNToken[1..] && NaNToken[2] == 'N'
    ensures |InfinityToken| > 2 && InfinityToken[0] == ':' && ':' !in InfinityToken[1..] && InfinityToken[2] == 'I'
    ensures |NegInfinityToken| > 2 && NegInfinityToken[0] == ':' && ':' !in NegInfinityToken[1..] && NegInfinityToken[2] == '-'
    ensures |NullToken| > 2 && NullToken[0] == ':' && ':' !in NullToken[1..] && NullToken[2] == 'n'
  {
  }

  /**
   * One pass over text with a token right after text free of the pattern's
   * first character: the pass copies the text before, replaces the token
   * when it is the pass's own pattern and otherwise copies it, and goes on
   * after it.
   */
  lemma PassOver(a: string, x: string, b: string, p: string)
    requires |p| > 2 && p[0] !in a
    requires x == p || (|x| > 2 && p[0] !in x[1..] && x[2] != p[2])
    ensures ReplaceAll(a + x + b, p, NullToken) == a + (if x == p then NullToken else x) + ReplaceAll(b, p, NullToken)
  {
    assert a + x + b == a + (x + b);
    ReplaceAllFreshPrefix(a, x + b, p, NullToken);
    if x == p {
      assert (x + b)[..|p|] == p && (x + b)[|p|..] == b;
      ReplaceAllHit(x + b, p, NullToken);
    } else {
      ReplaceAllSkip(x, b, p, NullToken, 2);
    }
  }

  /**
   * The repair rewrites a non-JSON number in place: the text before it, when
   * it holds no colon, is kept, the token becomes `: null`, and the text
   * after it is repaired in turn.
   */
  lemma RepairStep(a: string, x: string, b: string)
    requires IsNonJsonNumber(x) && ':' !in a
    ensures Repair(a + x + b) == a + NullToken + Repair(b)
  {
    var b1 := ReplaceAll(b, NaNToken, NullToken);
    var b2 := ReplaceAll(b1, InfinityToken, NullToken);
    var x1 := if x == NaNToken then NullToken else x;
    var x2 := if x1 == InfinityToken then NullToken else x1;
    TokenShapes();
    PassOver(a, x, b, NaNToken);
    PassOver(a, x1, b1, InfinityToken);
    PassOver(a, x2, b2, NegInfinityToken);
  }

  /** `[{"price": NaN}]` is repaired to `[{"price": null}]`. */
  lemma RepairExample(text: string, before: string, after: string)
    requires before == "[{\"price\"" && after == "}]"
    requires text == before + NaNToken + after
    ensures Repair(text) == "[{\"price\": null}]"
  {
    RepairStep(before, NaNToken, after);
    assert ':' !in after;
    if HasNonJsonNumber(after) {
      if Contains(after, NaNToken) {
        ContainsHead(after, NaNToken);
      } else if Contains(after, InfinityToken) {
        ContainsHead(after, InfinityToken);
      } else {
        ContainsHead(after, NegInfinityToken);
      }
    }
    RepairKeepsCleanText(after);
  }

  /**
   * `parsed.listings || parsed.properties || []` on a parsed value that is not
   * null: the first truthy of the two fields, else an empty array. The result
   * is always truthy, so the `|| []` inside `processData` never fires on it.
   */
  function Unwrap(v: Json): (r: Json)
    ensures Truthy(r)
    ensures TruthyField(Get(v, "listings")) ==> r == v.fields["listings"]
    ensures !TruthyField(Get(v, "listings")) && TruthyField(Get(v, "properties")) ==> r == v.fields["properties"]
    ensures !TruthyField(Get(v, "listings")) && !TruthyField(Get(v, "properties")) ==> r == JArray([])
  {
    var listings := Get(v, "listings");
    var properties := Get(v, "properties");
    if TruthyField(listings) then listings.value
    else if TruthyField(properties) then properties.value
    else JArray([])
  }
}
