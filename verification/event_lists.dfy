/** The event lists of the instance connectors: how they are normalised, stored as text, and read back. */
module EventLists {
  import opened Wrappers
  import Text

  const SUPPORTED: set<string> := {
    "ALL", "MESSAGE", "SEND_MESSAGE", "READ_RECEIPT", "PRESENCE", "HISTORY_SYNC", "CHAT_PRESENCE",
    "CALL", "CONNECTION", "LABEL", "CONTACT", "GROUP", "NEWSLETTER", "QRCODE"
  }

  function Canonical(part: string): string {
    Text.Upper(Text.Trim(part))
  }

  /** The distinct non-blank values among the parts, in order of first appearance. */
  function Collect(parts: seq<string>): seq<string>
    decreases |parts|
  {
    if parts == [] then []
    else
      var rest := Collect(parts[..|parts| - 1]);
      var value := Canonical(parts[|parts| - 1]);
      if value == "" || value in rest then rest else rest + [value]
  }

  /** parseLegacyEvents. */
  function Parse(raw: string): seq<string> {
    if Text.Trim(raw) == "" then [] else Collect(Text.Split(raw, ','))
  }

  predicate AllSupported(events: seq<string>) {
    forall e <- events :: Canonical(e) == "" || Canonical(e) in SUPPORTED
  }

  datatype EventError = UnsupportedEvent

  /** normalizeRequestedEvents. */
  function Normalize(events: seq<string>, existing: string, enabled: bool): Result<seq<string>, EventError> {
    if !enabled && events == [] then Ok(Parse(existing))
    else if !AllSupported(events) then Err(UnsupportedEvent)
    else if Collect(events) != [] then Ok(Collect(events))
    else if Parse(existing) != [] then Ok(Parse(existing))
    else Ok(["MESSAGE"])
  }

  /** The part stands for the name, in whatever case and between spaces. */
  predicate Names(part: string, name: string) {
    Text.Upper(Text.Trim(part)) == name != ""
  }

  predicate Named(parts: seq<string>, name: string) {
    exists i :: 0 <= i < |parts| && Names(parts[i], name)
  }

  ghost predicate SomeNamed(parts: seq<string>) {
    exists name :: Named(parts, name)
  }

  /** The names among the parts, each once. */
  ghost predicate ListsNames(parts: seq<string>, list: seq<string>) {
    && (forall name :: name in list <==> Named(parts, name))
    && forall i, j :: 0 <= i < j < |list| ==> list[i] != list[j]
  }

  lemma NamedSnoc(parts: seq<string>, part: string, name: string)
    ensures Named(parts + [part], name) <==> Named(parts, name) || Names(part, name)
  {
    if Named(parts, name) {
      var i :| 0 <= i < |parts| && Names(parts[i], name);
      assert Names((parts + [part])[i], name);
    }
    if Names(part, name) {
      assert Names((parts + [part])[|parts|], name);
    }
  }

  lemma ListsOneMore(parts: seq<string>, part: string, list: seq<string>)
    requires ListsNames(parts, list)
    ensures var value := Canonical(part);
      ListsNames(parts + [part], if value == "" || value in list then list else list + [value])
  {
    var value := Canonical(part);
    var list' := if value == "" || value in list then list else list + [value];
    forall name ensures name in list' <==> Named(parts + [part], name) {
      NamedSnoc(parts, part, name);
    }
  }

  /** A list holds the names of its parts. */
  lemma {:induction false} CollectIsExact(parts: seq<string>)
    ensures ListsNames(parts, Collect(parts))
    decreases |parts|
  {
    if parts == [] {
      assert forall name :: !Named(parts, name);
    } else {
      var n := |parts| - 1;
      var front, value := Collect(parts[..n]), Canonical(parts[n]);
      CollectIsExact(parts[..n]);
      ListsOneMore(parts[..n], parts[n], front);
      assert parts == parts[..n] + [parts[n]];
      assert Collect(parts) == if value == "" || value in front then front else front + [value];
    }
  }

  /** And in the order in which they first appear: more parts only add names at the end. */
  lemma {:induction false} CollectKeepsOrder(parts: seq<string>, n: nat)
    requires n <= |parts|
    ensures Collect(parts[..n]) <= Collect(parts)
    decreases |parts|
  {
    if n < |parts| {
      var m := |parts| - 1;
      CollectKeepsOrder(parts[..m], n);
      assert parts[..m][..n] == parts[..n];
    } else {
      assert parts[..n] == parts;
    }
  }

  /** The names in a stored text, which are separated by commas. */
  ghost predicate StoredNames(raw: string, list: seq<string>) {
    ListsNames(Text.Split(raw, ','), list)
  }

  lemma {:induction false} BlankIsTrimmedAway(s: string)
    requires Text.Trim(s) == ""
    ensures forall c <- s :: Text.IsSpace(c)
  {
    var left, right := Text.TrimCuts(s);
    forall c <- s ensures Text.IsSpace(c) {
      assert c in left + right && c in Text.SPACES;
    }
  }

  lemma {:induction false} SpacesTrimToNothing(s: string)
    requires forall c <- s :: Text.IsSpace(c)
    ensures Text.Trim(s) == ""
    decreases |s|
  {
    if s != "" {
      assert forall c <- s[1..] :: c in s;
      SpacesTrimToNothing(s[1..]);
      assert s[0] in s;
    }
  }

  lemma {:induction false} PiecesOfBlank(s: string)
    requires forall c <- s :: Text.IsSpace(c)
    ensures Text.Split(s, ',') == [s]
  {
    if ',' in s {
      assert false;
    }
    Text.SplitPiece(s, "", ',');
  }

  lemma ParseIsExact(raw: string)
    ensures StoredNames(raw, Parse(raw))
  {
    CollectIsExact(Text.Split(raw, ','));
    if Text.Trim(raw) == "" {
      BlankIsTrimmedAway(raw);
      PiecesOfBlank(raw);
    }
  }

  predicate AsksFor(events: seq<string>, i: nat)
    requires i < |events|
  {
    Text.Trim(events[i]) != ""
  }

  /**
   What a request leaves: nothing asked for, with the connector disabled, leaves what is stored; a name that is not
   supported is an error; names that are asked for replace what is stored; without any, what is stored stays, or else
   there is just "MESSAGE".
   */
  ghost predicate Requested(events: seq<string>, existing: string, enabled: bool, r: Result<seq<string>, EventError>) {
    if events == [] && !enabled then r.Ok? && StoredNames(existing, r.value)
    else if exists i :: 0 <= i < |events| && AsksFor(events, i) && Text.Upper(Text.Trim(events[i])) !in SUPPORTED
      then r.Err?
    else if exists i :: 0 <= i < |events| && AsksFor(events, i) then r.Ok? && ListsNames(events, r.value)
    else if SomeNamed(Text.Split(existing, ',')) then r.Ok? && StoredNames(existing, r.value)
    else r == Ok(["MESSAGE"])
  }

  lemma Unsupported(events: seq<string>)
    ensures AllSupported(events) <==> !exists i ::
      0 <= i < |events| && AsksFor(events, i) && Text.Upper(Text.Trim(events[i])) !in SUPPORTED
  {
    forall i | 0 <= i < |events| ensures Canonical(events[i]) == "" <==> !AsksFor(events, i) {
      Text.CaseFact(Text.Trim(events[i]));
    }
  }

  lemma NothingAsked(events: seq<string>)
    ensures Collect(events) != [] <==> exists i :: 0 <= i < |events| && AsksFor(events, i)
  {
    CollectIsExact(events);
    forall i | 0 <= i < |events| ensures AsksFor(events, i) <==> Names(events[i], Canonical(events[i])) {
      Text.CaseFact(Text.Trim(events[i]));
    }
    if Collect(events) != [] {
      assert Collect(events)[0] in Collect(events) && Named(events, Collect(events)[0]);
      var i :| 0 <= i < |events| && Names(events[i], Collect(events)[0]);
      assert AsksFor(events, i);
    }
    if i :| 0 <= i < |events| && AsksFor(events, i) {
      assert Names(events[i], Canonical(events[i])) && Named(events, Canonical(events[i]));
      assert Canonical(events[i]) in Collect(events);
    }
  }

  lemma NothingNamed(parts: seq<string>, list: seq<string>)
    requires ListsNames(parts, list)
    ensures list != [] <==> SomeNamed(parts)
  {
    if list != [] {
      assert list[0] in list && Named(parts, list[0]);
    }
    if name :| Named(parts, name) {
      assert name in list;
    }
  }

  lemma RequestedFirst(events: seq<string>, existing: string, enabled: bool)
    ensures Requested(events, existing, enabled, Normalize(events, existing, enabled))
  {
    CollectIsExact(events);
    ParseIsExact(existing);
    Unsupported(events);
    NothingAsked(events);
    NothingNamed(Text.Split(existing, ','), Parse(existing));
  }

  method ParseLegacyEvents(raw: string) returns (events: seq<string>)
    ensures events == Parse(raw)
  {
    events := [];
    if Text.Trim(raw) == "" {
      return;
    }
    var parts := Text.Split(raw, ',');
    var seen: set<string> := {};
    for i := 0 to |parts|
      invariant events == Collect(parts[..i])
      invariant forall v :: v in seen <==> v in events
    {
      assert parts[..i + 1][..i] == parts[..i];
      var value := Canonical(parts[i]);
      if value == "" || value in seen {
        continue;
      }
      seen := seen + {value};
      events := events + [value];
    }
    assert parts[..|parts|] == parts;
  }

  method NormalizeRequestedEvents(events: seq<string>, existing: string, enabled: bool)
      returns (r: Result<seq<string>, EventError>)
    ensures r == Normalize(events, existing, enabled)
    ensures Requested(events, existing, enabled, r)
  {
    RequestedFirst(events, existing, enabled);
    if !enabled && |events| == 0 {
      var parsed := ParseLegacyEvents(existing);
      return Ok(parsed);
    }
    var normalized: seq<string> := [];
    var seen: set<string> := {};
    for i := 0 to |events|
      invariant AllSupported(events[..i])
      invariant normalized == Collect(events[..i])
      invariant forall v :: v in seen <==> v in normalized
    {
      assert events[..i + 1][..i] == events[..i];
      assert events[i] in events;
      var value := Canonical(events[i]);
      if value == "" {
        continue;
      }
      if value !in SUPPORTED {
        return Err(UnsupportedEvent);
      }
      if value in seen {
        continue;
      }
      seen := seen + {value};
      normalized := normalized + [value];
    }
    assert events[..|events|] == events;
    if |normalized| > 0 {
      return Ok(normalized);
    }
    var current := ParseLegacyEvents(existing);
    if |current| > 0 {
      return Ok(current);
    }
    r := Ok(["MESSAGE"]);
  }

  /** A list that survives being stored: distinct, non-blank, upper-case, trimmed values without commas. */
  predicate Storable(list: seq<string>) {
    && (forall v <- list :: v != "" && Text.Trimmed(v) && Text.Upper(v) == v && ',' !in v)
    && (forall i, j :: 0 <= i < j < |list| ==> list[i] != list[j])
  }

  lemma CanonicalFact(part: string)
    ensures Text.Trimmed(Canonical(part)) && Text.Upper(Canonical(part)) == Canonical(part)
    ensures ',' !in part ==> ',' !in Canonical(part)
    ensures Text.Trimmed(part) && Text.Upper(part) == part ==> Canonical(part) == part
  {
    Text.TrimFact(part);
    Text.CaseFact(Text.Trim(part));
  }

  lemma {:induction false} CollectIsStorable(parts: seq<string>)
    requires forall p <- parts :: ',' !in Canonical(p)
    ensures Storable(Collect(parts))
    decreases |parts|
  {
    if parts != [] {
      assert forall p <- parts[..|parts| - 1] :: p in parts;
      CollectIsStorable(parts[..|parts| - 1]);
      CanonicalFact(parts[|parts| - 1]);
    }
  }

  lemma {:induction false} CollectKeepsStorable(list: seq<string>)
    requires Storable(list)
    ensures Collect(list) == list
    decreases |list|
  {
    if list != [] {
      var front, last := list[..|list| - 1], list[|list| - 1];
      assert forall v <- front :: v in list;
      CollectKeepsStorable(front);
      CanonicalFact(last);
      assert list == front + [last];
    }
  }

  lemma SupportedHaveNoComma(v: string)
    requires v in SUPPORTED
    ensures ',' !in v
  {
  }

  lemma ParseIsStorable(raw: string)
    ensures Storable(Parse(raw))
  {
    Text.PiecesHaveNoSeparator(raw, ',');
    forall p <- Text.Split(raw, ',') ensures ',' !in Canonical(p) {
      CanonicalFact(p);
    }
    CollectIsStorable(Text.Split(raw, ','));
  }

  lemma NormalizeIsStorable(events: seq<string>, existing: string, enabled: bool)
    requires Normalize(events, existing, enabled).Ok?
    ensures Storable(Normalize(events, existing, enabled).value)
  {
    ParseIsStorable(existing);
    if AllSupported(events) {
      forall e <- events ensures ',' !in Canonical(e) {
        if Canonical(e) != "" {
          SupportedHaveNoComma(Canonical(e));
        }
      }
      CollectIsStorable(events);
    }
  }

  lemma {:induction false} TrimRightKeepsHead(s: string)
    requires s != "" && !Text.IsSpace(s[0])
    ensures Text.TrimRight(s) != ""
    decreases |s|
  {
    if Text.IsSpace(s[|s| - 1]) {
      TrimRightKeepsHead(s[..|s| - 1]);
    }
  }

  lemma JoinIsNotBlank(list: seq<string>)
    requires Storable(list) && list != []
    ensures Text.Trim(Text.Join(list, ',')) != ""
  {
    var raw := Text.Join(list, ',');
    assert list[0] in list;
    assert raw[0] == list[0][0];
    TrimRightKeepsHead(raw);
  }

  /** Reading back the joined text of a storable list gives the list. */
  lemma StoredListsRoundTrip(list: seq<string>)
    requires Storable(list)
    ensures Parse(Text.Join(list, ',')) == list
  {
    if list != [] {
      JoinIsNotBlank(list);
      Text.SplitJoin(list, ',');
      CollectKeepsStorable(list);
    }
  }

  /** Whatever was requested, stored before and enabled: the list that is stored is the list that is read back. */
  lemma EventsRoundTrip(events: seq<string>, existing: string, enabled: bool)
    requires Normalize(events, existing, enabled).Ok?
    ensures Parse(Text.Join(Normalize(events, existing, enabled).value, ','))
      == Normalize(events, existing, enabled).value
  {
    NormalizeIsStorable(events, existing, enabled);
    StoredListsRoundTrip(Normalize(events, existing, enabled).value);
  }

  /** So a second request for nothing, with the connector disabled, leaves the stored text alone. */
  lemma StoredTextIsStable(events: seq<string>, existing: string, enabled: bool)
    requires Normalize(events, existing, enabled).Ok?
    ensures var text := Text.Join(Normalize(events, existing, enabled).value, ',');
      Normalize([], text, false) == Normalize(events, existing, enabled)
  {
    EventsRoundTrip(events, existing, enabled);
  }
}
