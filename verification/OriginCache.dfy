/**
 * Which merchant origin a launch is answered with: the API's answer, kept for a
 * minute under the launch's own key. Launches overlap, so a lookup and the
 * storing of its answer are separate steps with anything in between.
 */
module OriginCache {
  import opened Wrappers

  const SUMMARY_TTL_MS: nat := 60_000
  const CACHE_MAX_ENTRIES: nat := 500

  // ---- launches ----

  predicate ReferenceChar(c: char) {
    'A' <= c <= 'Z' || 'a' <= c <= 'z' || '0' <= c <= '9' || c == '_' || c == '-'
  }

  /** `pi_` and then 1 to 128 plain characters. */
  predicate ValidReference(s: string) {
    4 <= |s| <= 131 && s[..3] == "pi_" && forall i :: 3 <= i < |s| ==> ReferenceChar(s[i])
  }

  datatype Launch = Launch(reference: string, opener: Option<string>)

  function ReadLaunch(intent: Option<string>, opener: Option<string>): Option<Launch> {
    if intent.None? || !ValidReference(intent.value) then None else Some(Launch(intent.value, opener))
  }

  predicate LetterOrDigit(c: char) {
    'a' <= c <= 'z' || 'A' <= c <= 'Z' || '0' <= c <= '9'
  }

  /** What follows `pi_`: 1 to 128 letters, digits, underscores or hyphens. */
  predicate IsTail(tail: string) {
    1 <= |tail| <= 128 && forall c :: c in tail ==> LetterOrDigit(c) || c == '_' || c == '-'
  }

  lemma ReferenceIff(reference: string)
    ensures ValidReference(reference) <==> |reference| >= 3 && reference[..3] == "pi_" && IsTail(reference[3..])
  {
    if |reference| >= 3 {
      var tail := reference[3..];
      if IsTail(tail) {
        forall i | 3 <= i < |reference| ensures ReferenceChar(reference[i]) {
          assert reference[i] == tail[i - 3] && tail[i - 3] in tail;
        }
      }
      if ValidReference(reference) {
        forall c | c in tail ensures LetterOrDigit(c) || c == '_' || c == '-' {
          var i :| 0 <= i < |tail| && tail[i] == c;
          assert reference[i + 3] == c;
        }
      }
    }
  }

  /** A page is a launch exactly when its intent is such a reference; the opener rides along as it is. */
  lemma LaunchIff(intent: Option<string>, opener: Option<string>, launch: Launch)
    ensures ReadLaunch(intent, opener) == Some(launch) <==>
      && intent == Some(launch.reference) && launch.opener == opener
      && |launch.reference| >= 3 && launch.reference[..3] == "pi_" && IsTail(launch.reference[3..])
  {
    ReferenceIff(launch.reference);
  }

  function OpenerText(opener: Option<string>): string {
    if opener.Some? then opener.value else ""
  }

  const SEPARATOR: char := '\0'

  function CacheKey(launch: Launch): string {
    launch.reference + [SEPARATOR] + OpenerText(launch.opener)
  }

  /** What the API is asked. An empty opener is not sent. */
  datatype Request = Request(apiBase: string, reference: string, opener: Option<string>)

  function ApiRequest(apiBase: string, launch: Launch): Request {
    Request(apiBase, launch.reference, if OpenerText(launch.opener) == "" then None else launch.opener)
  }

  lemma {:induction false} SeparatedOnce(a: string, x: string, b: string, y: string)
    requires SEPARATOR !in a && SEPARATOR !in b
    ensures a + [SEPARATOR] + x == b + [SEPARATOR] + y <==> a == b && x == y
  {
    var s, t := a + [SEPARATOR] + x, b + [SEPARATOR] + y;
    if a != "" && b != "" {
      SeparatedOnce(a[1..], x, b[1..], y);
      assert s == [a[0]] + (a[1..] + [SEPARATOR] + x) && t == [b[0]] + (b[1..] + [SEPARATOR] + y);
      assert s[1..] == a[1..] + [SEPARATOR] + x && t[1..] == b[1..] + [SEPARATOR] + y;
      assert a == [a[0]] + a[1..] && b == [b[0]] + b[1..];
    } else {
      assert s[0] == (if a == "" then SEPARATOR else a[0]) && t[0] == (if b == "" then SEPARATOR else b[0]);
      if a == "" && b == "" { assert s[1..] == x && t[1..] == y; }
    }
  }

  /** Two launches share a key exactly when they would ask one API the same thing. */
  lemma KeysAreRequests(apiBase: string, intent: Option<string>, opener: Option<string>,
                        otherIntent: Option<string>, otherOpener: Option<string>)
    requires ReadLaunch(intent, opener).Some? && ReadLaunch(otherIntent, otherOpener).Some?
    ensures var a, b := ReadLaunch(intent, opener).value, ReadLaunch(otherIntent, otherOpener).value;
            && (CacheKey(a) == CacheKey(b) <==> ApiRequest(apiBase, a) == ApiRequest(apiBase, b))
            && (CacheKey(a) == CacheKey(b) <==>
                  a.reference == b.reference && (a.opener == b.opener || {a.opener, b.opener} == {None, Some("")}))
  {
    var a, b := ReadLaunch(intent, opener).value, ReadLaunch(otherIntent, otherOpener).value;
    NoSeparator(a.reference);
    NoSeparator(b.reference);
    SeparatedOnce(a.reference, OpenerText(a.opener), b.reference, OpenerText(b.opener));
  }

  lemma NoSeparator(reference: string)
    requires ValidReference(reference)
    ensures SEPARATOR !in reference
  {
    assert forall i :: 0 <= i < 3 ==> reference[i] == reference[..3][i];
  }

  // ---- the cache over time ----

  datatype Entry = Entry(origin: Option<string>, expiresAt: nat)

  /** What happened, oldest first: an answer stored, or a launch answered from the cache. */
  datatype Moment =
    | Answered(apiBase: string, launch: Launch, origin: Option<string>, askedAt: nat)
    | Hit(apiBase: string, launch: Launch, origin: Option<string>, at: nat)

  /** The answer last stored under a key. */
  function LastAnswer(history: seq<Moment>, key: string): Option<Moment> {
    if history == [] then None
    else
      var last := history[|history| - 1];
      if last.Answered? && CacheKey(last.launch) == key then Some(last) else LastAnswer(history[..|history| - 1], key)
  }

  lemma {:induction false} LastAnswerIsStored(history: seq<Moment>, key: string)
    ensures var last := LastAnswer(history, key);
            last.Some? ==> last.value in history && last.value.Answered? && CacheKey(last.value.launch) == key
  {
    if history != [] {
      var front, last := history[..|history| - 1], history[|history| - 1];
      assert history == front + [last];
      LastAnswerIsStored(front, key);
    }
  }

  lemma LastAnswerMore(history: seq<Moment>, next: Moment)
    ensures forall key :: LastAnswer(history + [next], key) ==
              if next.Answered? && CacheKey(next.launch) == key then Some(next) else LastAnswer(history, key)
  {
    assert (history + [next])[..|history|] == history;
  }

  /** Every hit gave what was last answered under its key, less than a minute after that was asked for. */
  predicate Fresh(history: seq<Moment>) {
    forall i :: 0 <= i < |history| && history[i].Hit? ==>
      var last := LastAnswer(history[..i], CacheKey(history[i].launch));
      last.Some? && last.value.Answered? && last.value.origin == history[i].origin
      && history[i].at < last.value.askedAt + SUMMARY_TTL_MS
  }

  lemma FreshMore(history: seq<Moment>, next: Moment)
    requires Fresh(history)
    requires next.Hit? ==>
               var last := LastAnswer(history, CacheKey(next.launch));
               last.Some? && last.value.Answered? && last.value.origin == next.origin
               && next.at < last.value.askedAt + SUMMARY_TTL_MS
    ensures Fresh(history + [next])
  {
    var all := history + [next];
    forall i | 0 <= i < |all| ensures all[..i] == history[..i] {
      if i == |history| { assert history[..i] == history; }
    }
    assert history[..|history|] == history;
  }

  /** What a moment asked, or would have asked, of the API its launch belongs to. */
  function Question(m: Moment): Request {
    ApiRequest(m.apiBase, m.launch)
  }

  /**
   * Every hit is an answer asked for within the last minute, under this launch's own
   * reference and opener; it answers this very question exactly when it came from
   * this launch's API, which the key does not name.
   */
  lemma HitsAreAnswers(history: seq<Moment>, i: nat) returns (j: nat)
    requires Fresh(history) && i < |history| && history[i].Hit?
    requires forall m :: m in history ==> ValidReference(m.launch.reference)
    ensures j < i && history[j].Answered? && history[j].origin == history[i].origin
    ensures history[i].at < history[j].askedAt + 60_000
    ensures Question(history[j]) == Question(history[i]) <==> history[j].apiBase == history[i].apiBase
    ensures Question(history[j]).(apiBase := history[i].apiBase) == Question(history[i])
  {
    var key := CacheKey(history[i].launch);
    LastAnswerIsStored(history[..i], key);
    var last := LastAnswer(history[..i], key).value;
    j :| 0 <= j < i && history[..i][j] == last;
    assert history[j] in history && history[i] in history;
    var a, b := history[j].launch, history[i].launch;
    KeysAreRequests(history[i].apiBase, Some(a.reference), a.opener, Some(b.reference), b.opener);
  }

  /** A run of the cache in which a launch under one API is answered with what another said. */
  method CrossApis(launch: Launch, first: string, second: string, origin: Option<string>)
    returns (answer: Option<string>)
    ensures answer == origin
  {
    var cache := new Cache();
    var own := cache.MerchantOriginFor(first, launch, 0, Some(origin));
    answer := cache.MerchantOriginFor(second, launch, 1, None);
    assert cache.history == [Answered(first, launch, origin, 0)] + [Hit(second, launch, origin, 1)];
  }

  class Cache {
    var entries: map<string, Entry>
    ghost var history: seq<Moment>

    constructor ()
      ensures Valid() && history == [] && entries == map[]
    {
      entries, history := map[], [];
    }

    ghost predicate Valid()
      reads this
    {
      && |entries| <= CACHE_MAX_ENTRIES
      && Fresh(history)
      && forall key :: key in entries ==> Remembers(key)
    }

    /** What is kept under a key is the last answer stored under it, for its minute. */
    ghost predicate Remembers(key: string)
      requires key in entries
      reads this
    {
      var last := LastAnswer(history, key);
      && last.Some? && last.value.Answered?
      && entries[key] == Entry(last.value.origin, last.value.askedAt + SUMMARY_TTL_MS)
    }

    /** The answer still good for a launch. */
    function Kept(launch: Launch, now: nat): Option<Option<string>>
      reads this
    {
      var key := CacheKey(launch);
      if key in entries && entries[key].expiresAt > now then Some(entries[key].origin) else None
    }

    method LookUp(apiBase: string, launch: Launch, now: nat) returns (hit: Option<Option<string>>)
      requires Valid()
      modifies this`history
      ensures Valid()
      ensures hit == old(Kept(launch, now))
      ensures history == old(history) + (if hit.Some? then [Hit(apiBase, launch, hit.value, now)] else [])
    {
      var key := CacheKey(launch);
      if key in entries && entries[key].expiresAt > now {
        assert Remembers(key);
        var origin := entries[key].origin;
        ghost var before, next := history, Hit(apiBase, launch, origin, now);
        FreshMore(history, next);
        LastAnswerMore(before, next);
        history := history + [next];
        return Some(origin);
      }
      return None;
    }

    /** An answer to a launch asked at `askedAt`, arriving now. */
    method Store(apiBase: string, launch: Launch, origin: Option<string>, askedAt: nat)
      requires Valid()
      modifies this
      ensures Valid()
      ensures history == old(history) + [Answered(apiBase, launch, origin, askedAt)]
      ensures |entries| <= 500
      ensures entries == (if |old(entries)| >= CACHE_MAX_ENTRIES then map[] else old(entries))
                         [CacheKey(launch) := Entry(origin, askedAt + SUMMARY_TTL_MS)]
    {
      ghost var before, next := history, Answered(apiBase, launch, origin, askedAt);
      FreshMore(history, next);
      LastAnswerMore(before, next);
      assert forall key :: key in entries ==> Remembers(key);
      if |entries| >= CACHE_MAX_ENTRIES { entries := map[]; }
      AtMostOneMore(entries, CacheKey(launch), Entry(origin, askedAt + SUMMARY_TTL_MS));
      entries := entries[CacheKey(launch) := Entry(origin, askedAt + SUMMARY_TTL_MS)];
      history := history + [next];
    }

    /** One launch from start to end with nothing in between; None is a fetch that threw. */
    method MerchantOriginFor(apiBase: string, launch: Launch, now: nat, fetched: Option<Option<string>>)
      returns (origin: Option<string>)
      requires Valid()
      modifies this
      ensures Valid()
      ensures var kept := old(Kept(launch, now));
              if kept.Some? then
                origin == kept.value && entries == old(entries)
                    && history == old(history) + [Hit(apiBase, launch, origin, now)]
              else if fetched.None? then origin == None && entries == old(entries) && history == old(history)
              else origin == fetched.value && history == old(history) + [Answered(apiBase, launch, origin, now)]
                   && Kept(launch, now) == Some(origin) && entries[CacheKey(launch)].expiresAt == now + SUMMARY_TTL_MS
    {
      var hit := LookUp(apiBase, launch, now);
      if hit.Some? { return hit.value; }
      if fetched.None? { return None; }
      Store(apiBase, launch, fetched.value, now);
      return fetched.value;
    }
  }

  lemma AtMostOneMore(entries: map<string, Entry>, key: string, entry: Entry)
    ensures |entries[key := entry]| <= |entries| + 1
  {
    assert entries[key := entry].Keys == entries.Keys + {key};
    if key in entries { assert entries.Keys + {key} == entries.Keys; }
  }
}
