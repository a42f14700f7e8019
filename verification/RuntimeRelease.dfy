/**
 The runtime release: the first User-Agent token, followed by as many of the features of a header as fit
 into 128 bytes, kept in the application context and extended at most once.
 */
module RuntimeRelease {
  import opened Text

  const MAX_RUNTIME_RELEASE_LENGTH: nat := 128

  // ---------------------------------------------------------------- choosing the features

  /** The room left for one more feature and its delimiter. */
  function Room(base: nat, chosen: seq<string>): int {
    MAX_RUNTIME_RELEASE_LENGTH - base - 3 - TotalBytes(chosen) - |chosen|
  }

  /** The features taken from a header's list when `base` bytes are already used. */
  function Selected(base: nat, features: seq<string>): seq<string> {
    if features == [] then []
    else
      var before := Selected(base, features[..|features| - 1]);
      var feature := features[|features| - 1];
      if Bytes(feature) <= Room(base, before) then before + [feature] else before
  }

  predicate Subsequence(xs: seq<string>, ys: seq<string>)
    decreases |ys|
  {
    if ys == [] then xs == []
    else
      || Subsequence(xs, ys[..|ys| - 1])
      || (xs != [] && xs[|xs| - 1] == ys[|ys| - 1] && Subsequence(xs[..|xs| - 1], ys[..|ys| - 1]))
  }

  /** In order, and none invented. */
  lemma {:induction false} SelectedInOrder(base: nat, features: seq<string>)
    ensures Subsequence(Selected(base, features), features)
    ensures forall f | f in Selected(base, features) :: f in features
  {
    if features != [] {
      var before := Selected(base, features[..|features| - 1]);
      SelectedInOrder(base, features[..|features| - 1]);
      var all := Selected(base, features);
      assert all != before ==> all[..|all| - 1] == before;
    }
  }

  /** The positions in the header of the features taken. */
  function Positions(base: nat, features: seq<string>): seq<nat> {
    if features == [] then []
    else
      var n := |features| - 1;
      var before := Positions(base, features[..n]);
      if Bytes(features[n]) <= Room(base, Selected(base, features[..n])) then before + [n] else before
  }

  /** The selection is what stands at its positions, which ascend. */
  lemma {:induction false} SelectedAtPositions(base: nat, features: seq<string>)
    ensures var (at, chosen) := (Positions(base, features), Selected(base, features));
            && |at| == |chosen|
            && (forall i | 0 <= i < |at| :: at[i] < |features| && features[at[i]] == chosen[i])
            && (forall i, j | 0 <= i < j < |at| :: at[i] < at[j])
  {
    if features != [] {
      var n := |features| - 1;
      SelectedAtPositions(base, features[..n]);
    }
  }

  /**
   Within the limit, and greedy: whatever position was passed over, its feature does not fit into what is
   left at the end either, also if the same feature was taken elsewhere.
   */
  lemma {:induction false} SelectedFitsAndIsMaximal(base: nat, features: seq<string>)
    ensures var chosen := Selected(base, features);
            && (chosen != [] ==> Room(base, chosen) >= -1)
            && forall k | 0 <= k < |features| && k !in Positions(base, features) ::
                 Bytes(features[k]) > Room(base, chosen)
  {
    if features != [] {
      var n := |features| - 1;
      SelectedFitsAndIsMaximal(base, features[..n]);
      TotalBytesAppended(Selected(base, features[..n]), features[n]);
    }
  }

  // ---------------------------------------------------------------- creating a release

  /** strings.ReplaceAll(s, c, ""). */
  function Stripped(s: string, c: char): string {
    if s == "" then ""
    else if s[0] == c then Stripped(s[1..], c) else [s[0]] + Stripped(s[1..], c)
  }

  function HeaderFeatures(header: string): seq<string> { Fields(Stripped(Stripped(header, '('), ')')) }

  function Named(release: string): string { if release == "" then "Unknown" else release }

  function Chosen(header: string,
                  release: string): seq<string> { Selected(Bytes(Named(release)), HeaderFeatures(header)) }

  function Created(header: string, release: string): string {
    if Chosen(header, release) == [] then release
    else Named(release) + " (" + Join(Chosen(header, release), ' ') + ")"
  }

  method CreateRuntimeReleaseFromRequest(header: string, release: string) returns (created: string)
    ensures created == Created(header, release)
  {
    var stripped := Stripped(header, '(');
    stripped := Stripped(stripped, ')');
    var numberOfAppendedFeatures := 0;
    var length := Bytes(release);
    if length == 0 { length := Bytes("Unknown"); }
    var availableLength := MAX_RUNTIME_RELEASE_LENGTH - length - 3;
    var features := Fields(stripped);
    var chosen: seq<string> := [];
    var i := 0;
    while i < |features|
      invariant 0 <= i <= |features| && chosen == Selected(length, features[..i])
      invariant numberOfAppendedFeatures == |chosen|
      invariant availableLength == MAX_RUNTIME_RELEASE_LENGTH - length - 3 - TotalBytes(chosen)
    {
      var feature := features[i];
      var featureLength := Bytes(feature);
      assert features[..i + 1][..i] == features[..i];
      TotalBytesAppended(chosen, feature);
      if featureLength <= availableLength - numberOfAppendedFeatures {
        availableLength := availableLength - featureLength;
        chosen := chosen + [feature];
        numberOfAppendedFeatures := numberOfAppendedFeatures + 1;
      }
      i := i + 1;
    }
    assert features[..i] == features;
    created := release;
    if |chosen| > 0 {
      if created == "" { created := "Unknown"; }
      created := created + " (" + Join(chosen, ' ') + ")";
    }
  }

  lemma BytesOfCreated(name: string, features: string)
    ensures Bytes(name + " (" + features + ")") == Bytes(name) + 3 + Bytes(features)
  {
    BytesJoined(name + " (" + features, ")");
    BytesJoined(name + " (", features);
    BytesJoined(name, " (");
    assert Bytes(" (") == 2 by { assert " ("[1..] == "(" && "("[1..] == ""; }
    assert Bytes(")") == 1 by { assert ")"[1..] == ""; }
  }

  /** With features the release fits the limit and ends in a bracket; without, it is what was given. */
  lemma CreatedFits(header: string, release: string)
    ensures var created := Created(header, release);
            && (Chosen(header, release) == [] <==> created == release)
            && (Chosen(header, release) != [] ==>
                  && Bytes(created) <= MAX_RUNTIME_RELEASE_LENGTH && Bytes(release) < Bytes(created)
                  && created[|created| - 1] == ')' && Named(release) <= created)
  {
    var chosen := Chosen(header, release);
    SelectedFitsAndIsMaximal(Bytes(Named(release)), HeaderFeatures(header));
    JoinedBytes(chosen, ' ');
    var created := Created(header, release);
    if chosen != [] {
      BytesOfCreated(Named(release), Join(chosen, ' '));
    }
  }

  /** The limit is exceeded exactly when the User-Agent token alone exceeds it: a long token is stored whole. */
  lemma TooLongExactlyWhen(header: string, release: string)
    ensures Bytes(Created(header, release)) > MAX_RUNTIME_RELEASE_LENGTH <==>
            Bytes(release) > MAX_RUNTIME_RELEASE_LENGTH
  {
    CreatedFits(header, release);
  }

  /** The feature of no position that was left out could be added without exceeding the limit. */
  lemma LeftOutDoNotFit(header: string, release: string, k: nat)
    requires k < |HeaderFeatures(header)| && k !in Positions(Bytes(Named(release)), HeaderFeatures(header))
    ensures Bytes(Created(header, release))
            + (if Chosen(header, release) == [] then Bytes(Named(release)) - Bytes(release) + 3 else 1)
            + Bytes(HeaderFeatures(header)[k]) > MAX_RUNTIME_RELEASE_LENGTH
  {
    SelectedFitsAndIsMaximal(Bytes(Named(release)), HeaderFeatures(header));
    JoinedBytes(Chosen(header, release), ' ');
    BytesOfCreated(Named(release), Join(Chosen(header, release), ' '));
  }

  lemma {:induction false} StrippedHasNone(s: string, c: char, d: char)
    ensures c !in Stripped(s, c) && (d !in s ==> d !in Stripped(s, c))
  {
    if s != "" { StrippedHasNone(s[1..], c, d); }
  }

  /** What is put between the brackets contains none, so that they delimit it. */
  lemma ChosenHaveNoBrackets(header: string, release: string)
    ensures forall f | f in Chosen(header, release) :: IsWord(f) && '(' !in f && ')' !in f
  {
    StrippedHasNone(header, '(', '(');
    StrippedHasNone(Stripped(header, '('), ')', '(');
    FieldsAreFromText(Stripped(Stripped(header, '('), ')'));
    SelectedInOrder(Bytes(Named(release)), HeaderFeatures(header));
  }

  /** The chosen features can be read back from between the brackets. */
  lemma FeaturesReadBack(header: string, release: string)
    requires Chosen(header, release) != []
    ensures var (created, n) := (Created(header, release), |Named(release)| + 2);
            && n < |created| && Fields(created[n..|created| - 1]) == Chosen(header, release)
            && Subsequence(Chosen(header, release), HeaderFeatures(header))
  {
    var chosen := Chosen(header, release);
    SelectedInOrder(Bytes(Named(release)), HeaderFeatures(header));
    FieldsJoined(chosen);
    var created, n := Created(header, release), |Named(release)| + 2;
    assert created[n..|created| - 1] == Join(chosen, ' ');
  }

  // ---------------------------------------------------------------- the application context

  datatype Request = Request(userAgent: string, features: string)

  /** The first token of the User-Agent header. */
  function UserAgent(request: Request): string {
    var fields := Fields(request.userAgent);
    if fields != [] then fields[0] else ""
  }

  /** What a request makes of the stored release; "" when none is stored. */
  function Updated(stored: string, request: Request): string {
    if stored != "" then
      var created := Created(request.features, stored);
      if Bytes(created) > Bytes(stored) && stored[|stored| - 1] != ')' then created else stored
    else Created(request.features, UserAgent(request))
  }

  class ApplicationContext {
    var runtimeRelease: string    // "" when not stored
    var stores: nat

    constructor ()
      ensures runtimeRelease == "" && stores == 0
    {
      runtimeRelease, stores := "", 0;
    }

    /** Answers true exactly when it stores, which is exactly when the release changes. */
    method UpdateWithRuntimeRelease(request: Request) returns (updated: bool)
      modifies this
      ensures runtimeRelease == Updated(old(runtimeRelease), request)
      ensures updated <==> runtimeRelease != old(runtimeRelease)
      ensures stores == old(stores) + if updated then 1 else 0
    {
      if |runtimeRelease| > 0 {
        var created := CreateRuntimeReleaseFromRequest(request.features, runtimeRelease);
        if Bytes(created) > Bytes(runtimeRelease) && runtimeRelease[|runtimeRelease| - 1] != ')' {
          runtimeRelease, stores := created, stores + 1;
          return true;
        }
        return false;
      }
      var created := CreateRuntimeReleaseFromRequest(request.features, UserAgent(request));
      if created != "" {
        runtimeRelease, stores := created, stores + 1;
        return true;
      }
      return false;
    }
  }

  /** The releases stored one after the other while the requests are handled. */
  function History(stored: string, requests: seq<Request>): seq<string>
    decreases |requests|
  {
    if requests == [] then []
    else
      var next := Updated(stored, requests[0]);
      (if next != stored then [next] else []) + History(next, requests[1..])
  }

  /** A release that ends in a bracket is final. */
  lemma {:induction false} BracketIsFinal(stored: string, requests: seq<Request>)
    requires stored != "" && stored[|stored| - 1] == ')'
    ensures History(stored, requests) == []
  {
    if requests != [] { BracketIsFinal(stored, requests[1..]); }
  }

  /** A stored release is extended at most once, to one that fits. */
  lemma {:induction false} ExtendedAtMostOnce(stored: string, requests: seq<Request>)
    requires stored != ""
    ensures var h := History(stored, requests);
            |h| <= 1 && (|h| == 1 ==> stored < h[0] && Bytes(h[0]) <= MAX_RUNTIME_RELEASE_LENGTH)
  {
    if requests != [] {
      var next := Updated(stored, requests[0]);
      CreatedFits(requests[0].features, stored);
      if next == stored {
        ExtendedAtMostOnce(stored, requests[1..]);
      } else {
        BracketIsFinal(next, requests[1..]);
      }
    }
  }

  /** What is stored first is within the limit or the token of some request. */
  lemma {:induction false} FirstStored(requests: seq<Request>)
    requires History("", requests) != []
    ensures var h := History("", requests);
            || Bytes(h[0]) <= MAX_RUNTIME_RELEASE_LENGTH
            || exists k :: 0 <= k < |requests| && h[0] == UserAgent(requests[k])
  {
    var r := requests[0];
    CreatedFits(r.features, UserAgent(r));
    if Updated("", r) == "" {
      FirstStored(requests[1..]);
      var h := History("", requests[1..]);
      if Bytes(h[0]) > MAX_RUNTIME_RELEASE_LENGTH {
        var k :| 0 <= k < |requests[1..]| && h[0] == UserAgent(requests[1..][k]);
        assert UserAgent(requests[k + 1]) == h[0];
      }
    } else {
      assert Bytes(Updated("", r)) > MAX_RUNTIME_RELEASE_LENGTH ==> Updated("", r) == UserAgent(requests[0]);
    }
  }

  lemma {:induction false} StoredThenExtended(requests: seq<Request>)
    ensures var h := History("", requests);
            |h| <= 2 && (|h| == 2 ==> h[0] < h[1] && Bytes(h[1]) <= MAX_RUNTIME_RELEASE_LENGTH)
  {
    if requests != [] {
      var next := Updated("", requests[0]);
      if next == "" { StoredThenExtended(requests[1..]); } else { ExtendedAtMostOnce(next, requests[1..]); }
    }
  }

  /**
   Over every sequence of requests a release is stored at most twice, the second extending the first, and
   none is longer than the limit or the first User-Agent token used.
   */
  lemma StoredAtMostTwice(requests: seq<Request>)
    ensures var h := History("", requests);
            && |h| <= 2
            && (|h| == 2 ==> h[0] < h[1] && Bytes(h[1]) <= MAX_RUNTIME_RELEASE_LENGTH)
            && (|h| >= 1 ==>
                  || Bytes(h[0]) <= MAX_RUNTIME_RELEASE_LENGTH
                  || exists k :: 0 <= k < |requests| && h[0] == UserAgent(requests[k]))
  {
    StoredThenExtended(requests);
    if History("", requests) != [] { FirstStored(requests); }
  }
}
