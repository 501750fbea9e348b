/** Two parsers of webhook payloads: the resource of a Console event name, and the result identifier in
    the address of a Sysdig event. */
module Parsers {
  import opened Values

  // ---------------------------------------------------------------------------------------------
  // Console event names
  // ---------------------------------------------------------------------------------------------

  /** `strings.Split` by one character: never empty, and no part holds the separator. */
  function Split(s: string, separator: char): (parts: seq<string>)
    ensures parts != []
  {
    if s == "" then [""]
    else
      var rest := Split(s[1..], separator);
      if s[0] == separator then [""] + rest else [[s[0]] + rest[0]] + rest[1..]
  }

  function Join(parts: seq<string>, separator: char): string {
    if parts == [] then ""
    else if |parts| == 1 then parts[0]
    else parts[0] + [separator] + Join(parts[1..], separator)
  }

  lemma {:induction false} PartsLackTheSeparator(s: string, separator: char)
    ensures forall part | part in Split(s, separator) :: separator !in part
  {
    if s == "" {
    } else {
      PartsLackTheSeparator(s[1..], separator);
      var rest := Split(s[1..], separator);
      assert rest == [rest[0]] + rest[1..];
    }
  }

  lemma JoinOfLongerHead(c: char, parts: seq<string>, separator: char)
    requires parts != []
    ensures Join([[c] + parts[0]] + parts[1..], separator) == [c] + Join(parts, separator)
  {
    var longer := [[c] + parts[0]] + parts[1..];
    assert longer[1..] == parts[1..];
    if |parts| > 1 {
      var tail := Join(parts[1..], separator);
      assert [c] + parts[0] + [separator] + tail == [c] + (parts[0] + [separator] + tail);
    }
  }

  /** Joining undoes splitting, and no part holds the separator. */
  lemma {:induction false} JoinUndoesSplit(s: string, separator: char)
    ensures Join(Split(s, separator), separator) == s
    ensures forall part | part in Split(s, separator) :: separator !in part
  {
    PartsLackTheSeparator(s, separator);
    if s == "" {
    } else {
      JoinUndoesSplit(s[1..], separator);
      var rest := Split(s[1..], separator);
      if s[0] == separator {
        assert ([""] + rest)[1..] == rest;
        assert [] + [separator] + s[1..] == s;
      } else {
        hide Join;
        JoinOfLongerHead(s[0], rest, separator);
        assert [s[0]] + s[1..] == s;
      }
    }
  }

  lemma {:induction false} SplitAtLast(r: string, verb: string, separator: char)
    requires separator !in verb
    ensures Split(r + [separator] + verb, separator) == Split(r, separator) + [verb]
  {
    var s := r + [separator] + verb;
    if r == "" {
      assert s[1..] == verb;
      SplitWhole(verb, separator);
    } else {
      assert s[1..] == r[1..] + [separator] + verb;
      SplitAtLast(r[1..], verb, separator);
      var rest := Split(r[1..], separator);
      assert (rest + [verb])[1..] == rest[1..] + [verb];
    }
  }

  lemma {:induction false} SplitWhole(s: string, separator: char)
    requires separator !in s
    ensures Split(s, separator) == [s]
  {
    if s == "" {
    } else {
      SplitWhole(s[1..], separator);
      assert [s[0]] + s[1..] == s;
    }
  }

  /** Everything before the last underscore, the whole name where there is none. */
  function ResourceOf(name: string): string {
    var parts := Split(name, '_');
    var resource := parts[..|parts| - 1];
    if resource != [] then Join(resource, '_') else parts[0]
  }

  class Event {
    const eventName: string
    /** The cache. It is decoded from the body like any other field, so it may be set from the start. */
    var resource: Option<string>

    constructor (eventName: string, resource: Option<string>)
      ensures this.eventName == eventName && this.resource == resource
    {
      this.eventName := eventName;
      this.resource := resource;
    }

    method GetResource() returns (value: string)
      modifies this
      ensures value == if old(resource).Some? then old(resource).value else ResourceOf(eventName)
      ensures resource == Some(value)
    {
      if resource.Some? {
        return resource.value;
      }
      var parts := Split(eventName, '_');
      var slice := parts[..|parts| - 1];
      if |slice| > 0 {
        value := Join(slice, '_');
      } else {
        value := parts[0];
      }
      resource := Some(value);
    }
  }

  /** Parsing undoes printing, whatever the resource, when the verb has no underscore. */
  lemma ResourceRoundTrip(resource: string, verb: string)
    requires '_' !in verb
    ensures ResourceOf(resource + "_" + verb) == resource
  {
    SplitAtLast(resource, verb, '_');
    JoinUndoesSplit(resource, '_');
    var parts := Split(resource, '_');
    assert (parts + [verb])[..|parts|] == parts;
  }

  /** And every name with an underscore was so printed. */
  lemma EveryNameIsPrinted(name: string)
    ensures '_' !in name ==> ResourceOf(name) == name
    ensures '_' in name ==>
              exists verb :: '_' !in verb && name == ResourceOf(name) + "_" + verb
  {
    if '_' !in name {
      SplitWhole(name, '_');
    } else {
      var i := LastOf(name, '_');
      var r, verb := name[..i], name[i + 1..];
      assert name == r + "_" + verb;
      ResourceRoundTrip(r, verb);
    }
  }

  function LastOf(s: string, c: char): (i: nat)
    requires c in s
    ensures i < |s| && s[i] == c && c !in s[i + 1..]
  {
    if s[|s| - 1] == c then |s| - 1
    else
      var i := LastOf(s[..|s| - 1], c);
      assert s[i + 1..] == s[..|s| - 1][i + 1..] + [s[|s| - 1]];
      i
  }

  // ---------------------------------------------------------------------------------------------
  // Sysdig result identifiers
  // ---------------------------------------------------------------------------------------------

  const RESULTS := "results/"
  const OVERVIEW := "/overview"

  /** `strings.Index`: where the first occurrence of `t` starts. */
  function Index(s: string, t: string): (r: Option<nat>)
    ensures r.Some? ==> r.value + |t| <= |s|
  {
    if t <= s then Some(0)
    else if s == "" then None
    else match Index(s[1..], t)
         case None => None
         case Some(i) => Some(i + 1)
  }

  predicate StartsAt(s: string, t: string, i: nat) {
    i + |t| <= |s| && s[i..i + |t|] == t
  }

  predicate Occurs(s: string, t: string) {
    exists i | 0 <= i <= |s| :: StartsAt(s, t, i)
  }

  datatype ParseError = NoResults | NoOverview | EmptyIdentifier

  function ExtractResultID(url: string): Result<string, ParseError> {
    match Index(url, RESULTS)
    case None => Err(NoResults)
    case Some(i) =>
      var remaining := url[i + |RESULTS|..];
      match Index(remaining, OVERVIEW)
      case None => Err(NoOverview)
      case Some(end) => if end == 0 then Err(EmptyIdentifier) else Ok(remaining[..end])
  }

  lemma StartsInTail(s: string, t: string, i: nat)
    requires 0 < i <= |s|
    ensures StartsAt(s, t, i) == StartsAt(s[1..], t, i - 1)
  {
    if i + |t| <= |s| {
      assert s[i..i + |t|] == s[1..][i - 1..i - 1 + |t|];
    }
  }

  lemma {:induction false} IndexIsFirst(s: string, t: string)
    ensures Index(s, t).None? ==> forall j | 0 <= j <= |s| :: !StartsAt(s, t, j)
    ensures Index(s, t).Some? ==>
              var i := Index(s, t).value;
              StartsAt(s, t, i) && forall j | 0 <= j < i :: !StartsAt(s, t, j)
  {
    assert StartsAt(s, t, 0) == (t <= s);
    if s == "" || t <= s {
    } else {
      IndexIsFirst(s[1..], t);
      forall j | 1 <= j <= |s|
        ensures StartsAt(s, t, j) == StartsAt(s[1..], t, j - 1)
      {
        StartsInTail(s, t, j);
      }
      hide StartsAt;
    }
  }

  /** A word whose first letter does not come back cannot overlap itself: it is found where it was put, unless
      it already occurs in what comes before. */
  lemma FoundWherePut(before: string, t: string, after: string)
    requires t != "" && t[0] !in t[1..]
    requires !Occurs(before, t)
    ensures Index(before + t + after, t) == Some(|before|)
  {
    var s := before + t + after;
    IndexIsFirst(s, t);
    assert StartsAt(s, t, |before|);
    forall j | 0 <= j < |before|
      ensures !StartsAt(s, t, j)
    {
      NoOverlap(before, t, after, j);
    }
    hide StartsAt, Index;
  }

  lemma NoOverlap(before: string, t: string, after: string, j: nat)
    requires t != "" && t[0] !in t[1..]
    requires !Occurs(before, t) && j < |before|
    ensures !StartsAt(before + t + after, t, j)
  {
    var s := before + t + after;
    if j + |t| <= |before| {
      assert s[j..j + |t|] == before[j..j + |t|];
      assert !StartsAt(before, t, j);
    } else if j + |t| <= |s| {
      var d := |before| - j;
      assert s[j..j + |t|][d] == s[|before|] == t[0];
      assert t[1..][d - 1] == t[d];
    }
  }

  /** What is found has nothing of the kind before it. */
  lemma NothingBefore(s: string, t: string)
    requires t != "" && Index(s, t).Some?
    ensures var i := Index(s, t).value; !Occurs(s[..i], t) && s == s[..i] + t + s[i + |t|..]
  {
    IndexIsFirst(s, t);
    var i := Index(s, t).value;
    forall j | 0 <= j <= i
      ensures !StartsAt(s[..i], t, j)
    {
      if j + |t| <= i {
        assert s[..i][j..j + |t|] == s[j..j + |t|];
        assert !StartsAt(s, t, j);
      }
    }
    assert s[i..i + |t|] == t;
  }

  /** The address embeds the identifier between the first "results/" and the next "/overview". */
  predicate Embeds(url: string, prefix: string, id: string, rest: string) {
    url == prefix + RESULTS + (id + OVERVIEW + rest) && !Occurs(prefix, RESULTS) && !Occurs(id, OVERVIEW)
  }

  /** An identifier is extracted exactly from the addresses that embed it. */
  lemma ExtractedIffEmbedded(url: string, id: string)
    ensures ExtractResultID(url) == Ok(id) <==> id != "" && exists prefix, rest :: Embeds(url, prefix, id, rest)
  {
    if ExtractResultID(url) == Ok(id) {
      NothingBefore(url, RESULTS);
      var i := Index(url, RESULTS).value;
      var remaining := url[i + |RESULTS|..];
      NothingBefore(remaining, OVERVIEW);
      var end := Index(remaining, OVERVIEW).value;
      assert Embeds(url, url[..i], id, remaining[end + |OVERVIEW|..]);
    }
    if id != "" && exists prefix, rest :: Embeds(url, prefix, id, rest) {
      var prefix, rest :| Embeds(url, prefix, id, rest);
      ExtractUndoesPrint(prefix, id, rest);
    }
  }

  lemma ExtractUndoesPrint(prefix: string, id: string, rest: string)
    requires id != "" && !Occurs(prefix, RESULTS) && !Occurs(id, OVERVIEW)
    ensures ExtractResultID(prefix + RESULTS + (id + OVERVIEW + rest)) == Ok(id)
  {
    var tail := id + OVERVIEW + rest;
    var url := prefix + RESULTS + tail;
    FoundWherePut(prefix, RESULTS, tail);
    FoundWherePut(id, OVERVIEW, rest);
    hide Index, Occurs;
    assert url[|prefix| + |RESULTS|..] == tail;
    assert tail[..|id|] == id;
  }

  predicate Splits(url: string, prefix: string, tail: string) {
    url == prefix + RESULTS + tail && !Occurs(prefix, RESULTS)
  }

  /** There is one way to split an address at its first "results/". */
  lemma SplitIsUnique(url: string, prefix: string, tail: string)
    requires Splits(url, prefix, tail)
    ensures Index(url, RESULTS) == Some(|prefix|) && tail == url[|prefix| + |RESULTS|..]
  {
    FoundWherePut(prefix, RESULTS, tail);
  }

  lemma SplitsAtFirst(url: string)
    requires Index(url, RESULTS).Some?
    ensures var i := Index(url, RESULTS).value;
            Splits(url, url[..i], url[i + |RESULTS|..])
  {
    NothingBefore(url, RESULTS);
  }

  lemma OccursIff(s: string, t: string)
    ensures Occurs(s, t) <==> Index(s, t).Some?
    ensures Index(s, t) == Some(0) <==> t <= s
  {
    IndexIsFirst(s, t);
    assert StartsAt(s, t, 0) == (t <= s);
  }

  /** The refusals: no "results/", no "/overview" after the first one, or nothing between the two. */
  lemma RefusedIff(url: string)
    ensures ExtractResultID(url) == Err(NoResults) <==> !Occurs(url, RESULTS)
    ensures ExtractResultID(url) == Err(NoOverview) <==>
            exists prefix, tail :: Splits(url, prefix, tail) && !Occurs(tail, OVERVIEW)
    ensures ExtractResultID(url) == Err(EmptyIdentifier) <==>
            exists prefix, tail :: Splits(url, prefix, tail) && OVERVIEW <= tail
  {
    OccursIff(url, RESULTS);
    forall prefix, tail | Splits(url, prefix, tail)
      ensures Index(url, RESULTS) == Some(|prefix|) && tail == url[|prefix| + |RESULTS|..]
    {
      SplitIsUnique(url, prefix, tail);
    }
    hide Splits, Occurs, Index;
    if Index(url, RESULTS).Some? {
      SplitsAtFirst(url);
      OccursIff(url[Index(url, RESULTS).value + |RESULTS|..], OVERVIEW);
    }
  }
}
