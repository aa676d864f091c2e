/**
 The SauceNAO quota decision taken after every search call: the service
 reports how many calls remain in its short (30 second) and long (daily)
 windows, and the tagger backs off, records that the limit was reached, or
 switches SauceNAO off for the rest of the run.
 */
module Quota {

  datatype QuotaDecision = QuotaDecision(
    /** sleep 35 seconds before carrying on (only the short window is used up) */
    backoff: bool,
    /** the daily limit is used up */
    limitReached: bool,
    /** whether SauceNAO is still to be called for later posts */
    saucenaoEnabled: bool)

  /**
   The branch on the remaining quota in parse_saucenao_results, and the
   hand-over to Deepbooru when the daily limit is reached.
   */
  function ClassifyQuota(limitShort: int, limitLong: int, deepbooruEnabled: bool, saucenaoEnabled: bool): (d: QuotaDecision)
    ensures d.limitReached <==> limitLong == 0
    ensures d.backoff <==> limitLong != 0 && limitShort == 0
    ensures d.saucenaoEnabled <==> saucenaoEnabled && !(limitLong == 0 && deepbooruEnabled)
  {
    var limitReached := !(limitLong != 0);
    var backoff := if limitLong != 0 then limitShort == 0 else false;
    var enabled := if limitReached && deepbooruEnabled then false else saucenaoEnabled;
    QuotaDecision(backoff, limitReached, enabled)
  }

}
