/** The X-Ray trace header: building it from its components and parsing it. */
module TraceHeader {
  import opened Text

  datatype Trace = Trace(root: string, parent: string, sampled: string, lineage: string)

  const NON_SAMPLED: string := "0"

  // ---------------------------------------------------------------- parsing

  function Set(t: Trace, key: string, value: string): Trace {
    if key == "Root" then t.(root := value)
    else if key == "Parent" then t.(parent := value)
    else if key == "Sampled" then t.(sampled := value)
    else if key == "Lineage" then t.(lineage := value)
    else t
  }

  /** What one pair of the header does to the results so far: nothing, unless it is one key and one value. */
  function Assign(t: Trace, pair: string): Trace {
    var keyValue := Split(pair, '=');
    if |keyValue| != 2 then t else Set(t, keyValue[0], keyValue[1])
  }

  function AssignAll(pairs: seq<string>): Trace {
    if pairs == [] then Trace("", "", "", "")
    else Assign(AssignAll(pairs[..|pairs| - 1]), pairs[|pairs| - 1])
  }

  function Parsed(header: string): Trace { AssignAll(Split(header, ';')) }

  method ParseTracingHeader(tracingHeader: string)
    returns (rootID: string, parentID: string, sampled: string, lineage: string)
    ensures Trace(rootID, parentID, sampled, lineage) == Parsed(tracingHeader)
  {
    rootID, parentID, sampled, lineage := "", "", "", "";
    var keyValuePairs := Split(tracingHeader, ';');
    var i := 0;
    while i < |keyValuePairs|
      invariant 0 <= i <= |keyValuePairs|
      invariant Trace(rootID, parentID, sampled, lineage) == AssignAll(keyValuePairs[..i])
    {
      var key, value := "", "";
      var keyValue := Split(keyValuePairs[i], '=');
      if |keyValue| == 2 { key, value := keyValue[0], keyValue[1]; }
      if key == "Root" { rootID := value; }
      else if key == "Parent" { parentID := value; }
      else if key == "Sampled" { sampled := value; }
      else if key == "Lineage" { lineage := value; }
      i := i + 1;
      assert keyValuePairs[..i][..i - 1] == keyValuePairs[..i - 1];
    }
    assert keyValuePairs[..i] == keyValuePairs;
  }

  // ---------------------------------------------------------------- building

  function Pair(key: string, value: string): string { key + "=" + value }

  function Pairs(root: string, parent: string, sample: string): seq<string> {
    [Pair("Root", root)]
    + (if parent != "" then [Pair("Parent", parent)] else [])
    + [Pair("Sampled", if sample == "" then NON_SAMPLED else sample)]
  }

  function Built(root: string, parent: string, sample: string): string {
    if root == "" then "" else Join(Pairs(root, parent, sample), ';')
  }

  method BuildFullTraceID(root: string, parent: string, sample: string) returns (header: string)
    ensures header == Built(root, parent, sample)
  {
    if root == "" { return ""; }
    var parts := [Pair("Root", root)];
    if parent != "" { parts := parts + [Pair("Parent", parent)]; }
    var s := sample;
    if s == "" { s := NON_SAMPLED; }
    parts := parts + [Pair("Sampled", s)];
    return Join(parts, ';');
  }

  // ---------------------------------------------------------------- round trip

  /** Free of the two separators. */
  predicate Clean(s: string) { ';' !in s && '=' !in s }

  predicate AllClean(t: Trace) { Clean(t.root) && Clean(t.parent) && Clean(t.sampled) && Clean(t.lineage) }

  /** A pair with a clean key and value is split into the two. */
  lemma PairSplits(key: string, value: string)
    requires Clean(key) && Clean(value)
    ensures ';' !in Pair(key, value) && Split(Pair(key, value), '=') == [key, value]
  {
    assert Join([key, value], '=') == key + "=" + value by {
      assert [key, value][1..] == [value];
      assert Join([value], '=') == value;
    }
    SplitJoined([key, value], '=');
  }

  lemma {:induction false} AssignedAreClean(pairs: seq<string>)
    requires forall p | p in pairs :: ';' !in p
    ensures AllClean(AssignAll(pairs))
  {
    if pairs != [] {
      var last := pairs[|pairs| - 1];
      AssignedAreClean(pairs[..|pairs| - 1]);
      assert ';' !in last;
      var keyValue := Split(last, '=');
      JoinSplit(last, '=');
      if |keyValue| == 2 {
        assert keyValue[1] in keyValue;
        assert last == keyValue[0] + "=" + keyValue[1];
      }
    }
  }

  /** Whatever the header, no parsed component contains a separator. */
  lemma ParsedAreClean(header: string)
    ensures AllClean(Parsed(header))
  {
    AssignedAreClean(Split(header, ';'));
  }

  /** One more clean pair. */
  lemma PairAssigned(pairs: seq<string>, key: string, value: string)
    requires Clean(key) && Clean(value)
    ensures AssignAll(pairs + [Pair(key, value)]) == Set(AssignAll(pairs), key, value)
  {
    PairSplits(key, value);
    assert (pairs + [Pair(key, value)])[..|pairs|] == pairs;
  }

  lemma PairsAssigned(root: string, parent: string, sample: string)
    requires Clean(root) && Clean(parent) && Clean(sample)
    ensures AssignAll(Pairs(root, parent, sample)) ==
            Trace(root, parent, if sample == "" then NON_SAMPLED else sample, "")
  {
    var s := if sample == "" then NON_SAMPLED else sample;
    PairAssigned([], "Root", root);
    var first := [] + [Pair("Root", root)];
    assert AssignAll(first) == Trace(root, "", "", "");
    PairAssigned(first, "Parent", parent);
    var second := if parent != "" then first + [Pair("Parent", parent)] else first;
    assert AssignAll(second) == Trace(root, parent, "", "");
    PairAssigned(second, "Sampled", s);
    assert Pairs(root, parent, sample) == second + [Pair("Sampled", s)];
  }

  lemma PairsSplitApart(root: string, parent: string, sample: string)
    requires Clean(root) && Clean(parent) && Clean(sample)
    ensures forall p | p in Pairs(root, parent, sample) :: ';' !in p
  {
    PairSplits("Root", root);
    PairSplits("Parent", parent);
    PairSplits("Sampled", if sample == "" then NON_SAMPLED else sample);
  }

  lemma BuiltParses(root: string, parent: string, sample: string)
    requires root != "" && Clean(root) && Clean(parent) && Clean(sample)
    ensures Parsed(Built(root, parent, sample)) == Trace(root, parent, if sample == "" then NON_SAMPLED else sample, "")
  {
    PairsAssigned(root, parent, sample);
    PairsSplitApart(root, parent, sample);
    SplitJoined(Pairs(root, parent, sample), ';');
  }

  /** The round trip holds exactly for components free of the separators. */
  lemma RoundTripExactlyWhen(root: string, parent: string, sample: string)
    requires root != ""
    ensures Parsed(Built(root, parent, sample)) == Trace(root, parent, if sample == "" then NON_SAMPLED else sample, "")
            <==> Clean(root) && Clean(parent) && Clean(sample)
  {
    ParsedAreClean(Built(root, parent, sample));
    if Clean(root) && Clean(parent) && Clean(sample) {
      BuiltParses(root, parent, sample);
    }
  }

  /** Rebuilding a parsed header with a root loses the lineage and nothing else, and parsing that again is stable. */
  lemma RebuiltParsesTheSame(header: string)
    requires Parsed(header).root != ""
    ensures var t := Parsed(header);
            Parsed(Built(t.root, t.parent, t.sampled)) ==
            t.(sampled := if t.sampled == "" then NON_SAMPLED else t.sampled, lineage := "")
  {
    ParsedAreClean(header);
    var t := Parsed(header);
    BuiltParses(t.root, t.parent, t.sampled);
  }

  /** The last pair wins: appending one overrides that component and no other. */
  lemma LastPairWins(header: string, key: string, value: string)
    requires Clean(key) && Clean(value)
    ensures var (t, u) := (Parsed(header), Parsed(header + ";" + Pair(key, value)));
            && u.root == (if key == "Root" then value else t.root)
            && u.parent == (if key == "Parent" then value else t.parent)
            && u.sampled == (if key == "Sampled" then value else t.sampled)
            && u.lineage == (if key == "Lineage" then value else t.lineage)
  {
    var pair := Pair(key, value);
    PairSplits(key, value);
    var pairs := Split(header, ';');
    JoinSplit(header, ';');
    JoinAppended(pairs, pair, ';');
    SplitJoined(pairs + [pair], ';');
    PairAssigned(pairs, key, value);
  }

  lemma {:induction false} JoinAppended(parts: seq<string>, p: string, sep: char)
    requires parts != []
    ensures Join(parts + [p], sep) == Join(parts, sep) + [sep] + p
  {
    if |parts| == 1 {
      assert (parts + [p])[1..] == [p];
      assert Join([p], sep) == p;
    } else {
      assert (parts + [p])[1..] == parts[1..] + [p];
      JoinAppended(parts[1..], p, sep);
    }
  }
}
