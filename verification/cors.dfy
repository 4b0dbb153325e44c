/** The cross-origin settings of the backend (backend/api/main.py): the
    `FRONTEND_ORIGIN` variable read as a comma-separated list of origins, and
    the wildcard case, which swaps the list for a match-everything pattern
    and turns credentials off. The middleware itself is not modelled. */
module Cors {
  import opened Wrappers
  import opened Text
  import Lists

  /** What the middleware is configured with. */
  datatype CorsConfig = CorsConfig(allowOrigins: seq<string>, originRegex: Option<string>,
                                   allowCredentials: bool)

  /** The origin used when the variable is not set. */
  const DefaultOrigin := "http://localhost:5173"

  const Wildcard := "*"
  const AnyOriginPattern := ".*"

  /** The variable's value, or the default when it is unset. */
  function Setting(env: Option<string>): (v: string)
    ensures env.Some? ==> v == env.value
    ensures env.None? ==> v == DefaultOrigin
  {
    env.GetOr(DefaultOrigin)
  }

  /** The origin list: the comma-separated pieces, each stripped of
      surrounding whitespace, the empty ones dropped, in order. No origin is
      empty, padded or holds a comma. */
  function ParseOrigins(value: string): (origins: seq<string>)
    ensures forall i :: 0 <= i < |origins| ==>
              origins[i] != "" && IsTrimmed(origins[i]) && ',' !in origins[i]
  {
    SplitTrimmed(value, ',')
  }

  /** A string is an origin exactly when some comma-separated piece strips
      down to it and it is not empty. */
  lemma OriginsMembers(value: string, w: string)
    ensures w in ParseOrigins(value) <==>
              w != "" && exists i :: 0 <= i < |Split(value, ',')| && Trim(Split(value, ',')[i]) == w
  {
    SplitTrimmedMembers(value, ',', w);
  }

  /** The origins are the non-empty stripped pieces in the order they were
      written, repetitions included. */
  lemma OriginsInOrder(value: string)
    ensures ParseOrigins(value) == Lists.Filter(TrimEach(Split(value, ',')), NotEmpty)
  {
    SplitTrimmedIsFilter(value, ',');
  }

  /** The settings the middleware gets. With a wildcard among the origins
      the list is emptied, every origin is matched by the pattern instead,
      and credentials are off, since the two may not be combined; otherwise
      the parsed list is used as it is, with credentials on. Either way,
      credentials are on exactly when no pattern is set, and never together
      with a wildcard origin. */
  function Configure(origins: seq<string>): (c: CorsConfig)
    ensures !c.allowCredentials <==> Wildcard in origins
    ensures c.allowCredentials <==> c.originRegex.None?
    ensures c.allowCredentials ==> c.allowOrigins == origins && Wildcard !in c.allowOrigins
    ensures !c.allowCredentials ==> c.allowOrigins == [] && c.originRegex == Some(AnyOriginPattern)
  {
    if Wildcard in origins then CorsConfig([], Some(AnyOriginPattern), false)
    else CorsConfig(origins, None, true)
  }

  /** What the middleware is given for a value of the variable, or for
      none: either the listed origins with credentials, none of them blank,
      padded, comma-holding or the wildcard, or any origin by pattern without
      credentials. */
  function FromEnvironment(env: Option<string>): (c: CorsConfig)
    ensures c.allowCredentials <==> c.originRegex.None?
    ensures !c.allowCredentials ==> c.allowOrigins == [] && c.originRegex == Some(AnyOriginPattern)
    ensures forall o :: o in c.allowOrigins ==> o != "" && IsTrimmed(o) && ',' !in o && o != Wildcard
  {
    Configure(ParseOrigins(Setting(env)))
  }

  /** The wildcard case, in terms of the raw value: some comma-separated
      piece strips down to `*`. */
  lemma WildcardIff(value: string)
    ensures !FromEnvironment(Some(value)).allowCredentials <==>
              exists i :: 0 <= i < |Split(value, ',')| && Trim(Split(value, ',')[i]) == Wildcard
  {
    OriginsMembers(value, Wildcard);
  }

  /** A single origin with nothing to strip is parsed as itself. */
  lemma {:induction false} SingleOrigin(o: string)
    requires o != "" && IsTrimmed(o) && ',' !in o
    ensures ParseOrigins(o) == [o]
  {
    SplitTrimmedJoin([o], ',');
  }

  /** Unset, the variable allows the development server's origin alone, with
      credentials. */
  lemma UnsetUsesDefault()
    ensures FromEnvironment(None) == CorsConfig([DefaultOrigin], None, true)
  {
    OneOrigin(DefaultOrigin);
  }

  /** A variable naming one origin, other than the wildcard, allows that
      origin alone, with credentials. */
  lemma OneOrigin(o: string)
    requires o != "" && IsTrimmed(o) && ',' !in o && o != Wildcard
    ensures FromEnvironment(Some(o)) == CorsConfig([o], None, true)
  {
    SingleOrigin(o);
  }

  /** A list written out by joining origins with commas is read back as the
      same list; without a wildcard it is what the middleware allows. */
  lemma {:induction false} JoinedOriginsRoundTrip(origins: seq<string>)
    requires |origins| >= 1
    requires forall i :: 0 <= i < |origins| ==> origins[i] != "" && IsTrimmed(origins[i]) && ',' !in origins[i]
    requires Wildcard !in origins
    ensures ParseOrigins(Join(origins, ',')) == origins
    ensures FromEnvironment(Some(Join(origins, ','))) == CorsConfig(origins, None, true)
  {
    SplitTrimmedJoin(origins, ',');
  }

  /** A padded wildcard is still a wildcard. */
  lemma PaddedWildcard()
    ensures FromEnvironment(Some(" * ")) == CorsConfig([], Some(AnyOriginPattern), false)
  {
    var v := " * ";
    assert ',' !in v;
    SplitSepFree(v, ',');
    assert v == " " + Wildcard + " ";
    TrimPadded(" ", Wildcard, " ");
    WildcardIff(v);
    assert Trim(Split(v, ',')[0]) == Wildcard;
  }
}
