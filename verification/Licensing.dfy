/** The policy table of `dealfinder/licensing.py`. */
module Licensing {
  import opened Options

  datatype SourcePolicy = SourcePolicy(verdicts: bool, store: bool, embed: bool, comingle: bool, maxAgeS: real,
                                       launch: bool)

  const HOUR := 3600.0

  const COURSE := SourcePolicy(true, true, true, true, 72.0 * HOUR, false)

  const POLICIES: map<string, SourcePolicy> := map[
    "BestBuy" := SourcePolicy(true, true, true, true, 72.0 * HOUR, true),
    "eBay" := SourcePolicy(false, false, false, false, 6.0 * HOUR, true),
    "RapidAPI" := COURSE, "Apify" := COURSE, "Amazon" := COURSE,
    "Shopify" := COURSE, "Firecrawl" := COURSE, "iTunes" := COURSE]

  /** The text before the first ':'. */
  function SourceKey(source: string): string {
    if source == "" || source[0] == ':' then "" else [source[0]] + SourceKey(source[1..])
  }

  function PolicyFor(source: string): Option<SourcePolicy> {
    var k := SourceKey(source);
    if k in POLICIES then Some(POLICIES[k]) else None
  }

  predicate MayStore(source: string) { PolicyFor(source).Some? && PolicyFor(source).value.store }

  predicate MayEmbed(source: string) { PolicyFor(source).Some? && PolicyFor(source).value.embed }

  /** How old a storable source's rows may get. */
  function MaxAge(source: string): real
    requires MayStore(source)
  {
    PolicyFor(source).value.maxAgeS
  }

  /** A detail after the key never changes the policy. */
  lemma {:induction false} DetailKeepsPolicy(key: string, detail: string)
    requires ':' !in key
    ensures PolicyFor(key + ":" + detail) == PolicyFor(key)
  {
    KeyIgnoresDetail(key, detail);
  }

  lemma {:induction false} KeyIgnoresDetail(key: string, detail: string)
    requires ':' !in key
    ensures SourceKey(key + ":" + detail) == SourceKey(key) == key
  {
    if key == "" {
      assert ("" + ":" + detail)[0] == ':';
    } else {
      assert (key + ":" + detail)[1..] == key[1..] + ":" + detail;
      KeyIgnoresDetail(key[1..], detail);
    }
  }
}
