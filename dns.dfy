/**
 * The two ways the workflows name the host's DNS "A" record: `up` creates
 * the record under the name `strings.TrimSuffix(host, "." + domain)`;
 * `down` deletes the record whose name satisfies `name + "." + domain == host`.
 */
module Dns {

  predicate EndsWith(s: string, suffix: string) {
    |suffix| <= |s| && s[|s| - |suffix|..] == suffix
  }

  /** Go's `strings.TrimSuffix`: drops `suffix` once if `s` ends with it, otherwise returns `s`. */
  function TrimSuffix(s: string, suffix: string): (r: string)
    ensures EndsWith(s, suffix) ==> r + suffix == s
    ensures !EndsWith(s, suffix) ==> r == s
  {
    if EndsWith(s, suffix) then s[..|s| - |suffix|] else s
  }

  /** The record name `up` creates for `host` under `domain`. */
  function RecordName(host: string, domain: string): string {
    TrimSuffix(host, "." + domain)
  }

  /** The test `down` applies to each record's name. */
  predicate MatchesHost(name: string, domain: string, host: string) {
    name + "." + domain == host
  }

  /**
   * The record `up` creates is the one `down` matches exactly when the host
   * name ends with "." + domain; otherwise `down` never matches it.
   */
  lemma RoundTrip(host: string, domain: string)
    ensures MatchesHost(RecordName(host, domain), domain, host) <==> EndsWith(host, "." + domain)
  {
    var suffix := "." + domain;
    if !EndsWith(host, suffix) {
      assert |RecordName(host, domain) + suffix| > |host|;
    } else {
      assert RecordName(host, domain) + "." + domain == RecordName(host, domain) + suffix;
    }
  }

  /** The only name `down` can match for `host` is the name `up` gives the record. */
  lemma MatchedNameIsRecordName(name: string, domain: string, host: string)
    requires MatchesHost(name, domain, host)
    ensures name == RecordName(host, domain)
  {
    var suffix := "." + domain;
    assert host == name + suffix;
    assert host[|host| - |suffix|..] == suffix;
    assert host[..|host| - |suffix|] == name;
  }
}
