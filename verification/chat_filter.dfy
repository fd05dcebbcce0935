/** Chat search filters, the predicate they stand for, and the cache key that is computed from them. */
module ChatFilter {
  import opened Wrappers
  import Text

  datatype Filter = Filter(remoteJid: string, query: string)

  /** The string values under where.remoteJid, where.query and where.search, if they are there. */
  datatype Request = Request(remoteJid: Option<string>, query: Option<string>, search: Option<string>)

  const MAX_QUERY: nat := 100
  const MAX_JID: nat := 255

  /** normalizeChatSearchFilter; None is a validation error. */
  function Normalize(input: Request): Option<Filter> {
    var jid := Text.Trim(input.remoteJid.GetOr(""));
    var query := Text.Trim(input.query.GetOr(""));
    var filter := Filter(jid, if query == "" then Text.Trim(input.search.GetOr("")) else query);
    if |filter.remoteJid| > MAX_JID || |filter.query| > MAX_QUERY then None else Some(filter)
  }

  /** Go's strings.EqualFold, on ASCII. */
  predicate EqualFold(a: string, b: string) {
    Text.Lower(a) == Text.Lower(b)
  }

  /** matchesChatFilter. */
  predicate Matches(remoteJid: string, pushName: string, filter: Filter) {
    if filter.remoteJid != "" && !EqualFold(Text.Trim(remoteJid), filter.remoteJid) then false
    else if filter.query == "" then true
    else
      var query := Text.Lower(Text.Trim(filter.query));
      Text.Contains(Text.Lower(pushName), query) || Text.Contains(Text.Lower(remoteJid), query)
  }

  /**
   What a request asks for: its JID, and its query or, when that is blank, its search text, all trimmed; it is refused
   exactly when the JID is longer than 255 or the text longer than 100.
   */
  lemma RequestMeans(input: Request)
    ensures var jid := match input.remoteJid case Some(t) => Text.Trim(t) case None => "";
      var query := match input.query case Some(t) => Text.Trim(t) case None => "";
      var search := match input.search case Some(t) => Text.Trim(t) case None => "";
      && (query != "" ==> (Normalize(input) == Some(Filter(jid, query)) <==> |jid| <= 255 && |query| <= 100))
      && (query == "" ==> (Normalize(input) == Some(Filter(jid, search)) <==> |jid| <= 255 && |search| <= 100))
      && (Normalize(input) == None <==> |jid| > 255 || |if query != "" then query else search| > 100)
  {
    Text.TrimFact("");
  }

  /** The text contains the word, in whatever case. */
  ghost predicate Mentions(text: string, word: string) {
    exists before, found, after :: text == before + found + after && Text.Lower(found) == Text.Lower(word)
  }

  lemma LowerOfParts(a: string, b: string)
    ensures Text.Lower(a + b) == Text.Lower(a) + Text.Lower(b)
  {
  }

  lemma MentionsMeans(text: string, word: string)
    ensures Text.Contains(Text.Lower(text), Text.Lower(word)) <==> Mentions(text, word)
  {
    Text.ContainsMeans(Text.Lower(text), Text.Lower(word));
    if before, after :| Text.Lower(text) == before + Text.Lower(word) + after {
      var i, j := |before|, |before| + |Text.Lower(word)|;
      assert text == text[..i] + text[i..j] + text[j..];
      assert Text.Lower(text[i..j]) == Text.Lower(text)[i..j] == Text.Lower(word);
    }
    if before, found, after :| text == before + found + after && Text.Lower(found) == Text.Lower(word) {
      LowerOfParts(before + found, after);
      LowerOfParts(before, found);
      assert Text.Lower(text) == Text.Lower(before) + Text.Lower(word) + Text.Lower(after);
    }
  }

  /**
   Which records a filter accepts: those whose JID is the one asked for, if one is, and whose name or JID mentions the
   text asked for, if there is any, both regardless of case.
   */
  lemma MatchesMeans(remoteJid: string, pushName: string, filter: Filter)
    requires Text.Trimmed(filter.query)
    ensures Matches(remoteJid, pushName, filter) <==>
      && (filter.remoteJid == "" || Text.Lower(Text.Trim(remoteJid)) == Text.Lower(filter.remoteJid))
      && (filter.query == "" || Mentions(pushName, filter.query) || Mentions(remoteJid, filter.query))
  {
    Text.TrimFact(filter.query);
    MentionsMeans(pushName, filter.query);
    MentionsMeans(remoteJid, filter.query);
  }

  /** chatSearchCacheKey. */
  function CacheKey(tenant: string, instance: string, filter: Filter): string {
    Text.Join([Text.Trim(tenant), Text.Trim(instance),
               Text.Lower(Text.Trim(filter.remoteJid)), Text.Lower(Text.Trim(filter.query))], '\0')
  }

  /** A filter that normalizeChatSearchFilter may return. */
  ghost predicate Normalized(filter: Filter) {
    exists input :: Normalize(input) == Some(filter)
  }

  predicate NulFree(tenant: string, instance: string, filter: Filter) {
    '\0' !in tenant && '\0' !in instance && '\0' !in filter.remoteJid && '\0' !in filter.query
  }

  lemma NormalizedIsTrimmed(filter: Filter)
    requires Normalized(filter)
    ensures Text.Trim(filter.remoteJid) == filter.remoteJid && Text.Trim(filter.query) == filter.query
  {
    var input :| Normalize(input) == Some(filter);
    Text.TrimFact(input.remoteJid.GetOr(""));
    Text.TrimFact(input.query.GetOr(""));
    Text.TrimFact(input.search.GetOr(""));
  }

  lemma JoinOfFour(a: string, b: string, c: string, d: string)
    ensures Text.Join([a, b, c, d], '\0') == a + ['\0'] + (b + ['\0'] + (c + ['\0'] + d))
  {
    assert [a, b, c, d][1..] == [b, c, d] && [b, c, d][1..] == [c, d] && [c, d][1..] == [d];
    assert Text.Join([c, d], '\0') == c + ['\0'] + d;
    assert Text.Join([b, c, d], '\0') == b + ['\0'] + (c + ['\0'] + d);
  }

  lemma LowerKeepsNul(s: string)
    ensures '\0' in Text.Lower(s) ==> '\0' in s
  {
    if '\0' in Text.Lower(s) {
      var i :| 0 <= i < |s| && Text.LowerChar(s[i]) == '\0';
      assert s[i] == '\0';
    }
  }

  lemma PartsNulFree(s: string)
    requires '\0' !in s
    ensures '\0' !in Text.Trim(s) && '\0' !in Text.Lower(Text.Trim(s))
  {
    Text.TrimFact(s);
    LowerKeepsNul(Text.Trim(s));
  }

  /** Without NULs, two keys are equal exactly when tenant, instance and folded filter are. */
  lemma KeyIsInjective(t: string, i: string, f: Filter, t': string, i': string, f': Filter)
    requires NulFree(t, i, f) && NulFree(t', i', f')
    ensures CacheKey(t, i, f) == CacheKey(t', i', f') <==>
      && Text.Trim(t) == Text.Trim(t') && Text.Trim(i) == Text.Trim(i')
      && EqualFold(Text.Trim(f.remoteJid), Text.Trim(f'.remoteJid))
      && EqualFold(Text.Trim(f.query), Text.Trim(f'.query))
  {
    var a, b, c, d := Text.Trim(t), Text.Trim(i), Text.Lower(Text.Trim(f.remoteJid)), Text.Lower(Text.Trim(f.query));
    var a', b', c', d' := Text.Trim(t'), Text.Trim(i'), Text.Lower(Text.Trim(f'.remoteJid)),
      Text.Lower(Text.Trim(f'.query));
    PartsNulFree(t);
    PartsNulFree(i);
    PartsNulFree(f.remoteJid);
    PartsNulFree(t');
    PartsNulFree(i');
    PartsNulFree(f'.remoteJid);
    JoinOfFour(a, b, c, d);
    JoinOfFour(a', b', c', d');
    if CacheKey(t, i, f) == CacheKey(t', i', f') {
      Text.CutIsUnique(a, b + ['\0'] + (c + ['\0'] + d), a', b' + ['\0'] + (c' + ['\0'] + d'), '\0');
      Text.CutIsUnique(b, c + ['\0'] + d, b', c' + ['\0'] + d', '\0');
      Text.CutIsUnique(c, d, c', d', '\0');
    }
  }

  lemma FoldedEmpty(s: string)
    ensures Text.Lower(s) == "" <==> s == ""
  {
    assert |Text.Lower(s)| == |s|;
  }

  /** Filters that fold to the same text accept the same records. */
  lemma FoldedFiltersAgree(f: Filter, f': Filter, remoteJid: string, pushName: string)
    requires Text.Trim(f.query) == f.query && Text.Trim(f'.query) == f'.query
    requires EqualFold(f.remoteJid, f'.remoteJid) && EqualFold(f.query, f'.query)
    ensures Matches(remoteJid, pushName, f) == Matches(remoteJid, pushName, f')
  {
    FoldedEmpty(f.remoteJid);
    FoldedEmpty(f'.remoteJid);
    FoldedEmpty(f.query);
    FoldedEmpty(f'.query);
  }

  /**
   The key is a sound abstraction of the query: requests that share a cache entry are for the same tenant and
   instance, and their filters accept the same chats.
   */
  lemma KeyIsSound(t: string, i: string, f: Filter, t': string, i': string, f': Filter)
    requires Normalized(f) && Normalized(f') && NulFree(t, i, f) && NulFree(t', i', f')
    requires CacheKey(t, i, f) == CacheKey(t', i', f')
    ensures Text.Trim(t) == Text.Trim(t') && Text.Trim(i) == Text.Trim(i')
    ensures forall remoteJid, pushName :: Matches(remoteJid, pushName, f) == Matches(remoteJid, pushName, f')
  {
    KeyIsInjective(t, i, f, t', i', f');
    NormalizedIsTrimmed(f);
    NormalizedIsTrimmed(f');
    forall remoteJid, pushName ensures Matches(remoteJid, pushName, f) == Matches(remoteJid, pushName, f') {
      FoldedFiltersAgree(f, f', remoteJid, pushName);
    }
  }

  /**
   With a NUL in a filter two different queries can share a key: one asks for a chat named "x", the other for "x\0y".
   */
  lemma NulCollides()
    ensures var f, f' := Filter("x\0y", ""), Filter("x", "y\0");
      && Normalize(Request(Some("x\0y"), None, None)) == Some(f)
      && Normalize(Request(Some("x"), Some("y\0"), None)) == Some(f')
      && CacheKey("t", "i", f) == CacheKey("t", "i", f')
      && Matches("x\0y", "", f) && !Matches("x\0y", "", f')
  {
    var f, f' := Filter("x\0y", ""), Filter("x", "y\0");
    Text.TrimFact("x\0y");
    Text.TrimFact("x");
    Text.TrimFact("y\0");
    Text.TrimFact("");
    Text.TrimFact("t");
    Text.TrimFact("i");
    JoinOfFour("t", "i", Text.Lower("x\0y"), Text.Lower(""));
    JoinOfFour("t", "i", Text.Lower("x"), Text.Lower("y\0"));
    assert Text.Lower("x\0y") == "x\0y" && Text.Lower("x") == "x" && Text.Lower("y\0") == "y\0";
    assert "x\0y" + ['\0'] + "" == "x" + ['\0'] + "y\0";
  }

  // ------------------------------------------------- which keys are ambiguous

  /** The part of the key that stands for the filter, before case folding. */
  function Tail(filter: Filter): string {
    filter.remoteJid + ['\0'] + filter.query
  }

  /** Cut at position k instead, the tail is that of another filter that normalizeChatSearchFilter may return. */
  predicate CutsAt(filter: Filter, k: nat) {
    var tail := Tail(filter);
    && k < |tail| && k != |filter.remoteJid| && tail[k] == '\0'
    && Text.Trimmed(tail[..k]) && Text.Trimmed(tail[k + 1..])
    && k <= MAX_JID && |tail| - k - 1 <= MAX_QUERY
  }

  predicate Ambiguous(filter: Filter) {
    exists k: nat :: k < |Tail(filter)| && CutsAt(filter, k)
  }

  ghost predicate SameQuery(t: string, i: string, f: Filter, t': string, i': string, f': Filter) {
    && Text.Trim(t) == Text.Trim(t') && Text.Trim(i) == Text.Trim(i')
    && forall remoteJid, pushName :: Matches(remoteJid, pushName, f) == Matches(remoteJid, pushName, f')
  }

  /** Another request with the same key, for ids without NULs. */
  ghost predicate Shares(t: string, i: string, f: Filter, t': string, i': string, f': Filter) {
    '\0' !in t' && '\0' !in i' && Normalized(f') && CacheKey(t, i, f) == CacheKey(t', i', f')
  }

  lemma LowerTail(f: Filter)
    ensures Text.Lower(Tail(f)) == Text.Lower(f.remoteJid) + ['\0'] + Text.Lower(f.query)
  {
  }

  lemma KeyOfTail(t: string, i: string, f: Filter)
    requires Text.Trim(f.remoteJid) == f.remoteJid && Text.Trim(f.query) == f.query
    ensures CacheKey(t, i, f) == Text.Trim(t) + ['\0'] + (Text.Trim(i) + ['\0'] + Text.Lower(Tail(f)))
  {
    JoinOfFour(Text.Trim(t), Text.Trim(i), Text.Lower(f.remoteJid), Text.Lower(f.query));
    LowerTail(f);
  }

  /** Without NULs in the ids, equal keys have equal ids and equal tails, up to case. */
  lemma KeyParts(t: string, i: string, f: Filter, t': string, i': string, f': Filter)
    requires Normalized(f) && Normalized(f')
    requires '\0' !in t && '\0' !in i && '\0' !in t' && '\0' !in i'
    ensures CacheKey(t, i, f) == CacheKey(t', i', f') <==>
      && Text.Trim(t) == Text.Trim(t') && Text.Trim(i) == Text.Trim(i')
      && EqualFold(Tail(f), Tail(f'))
  {
    NormalizedIsTrimmed(f);
    NormalizedIsTrimmed(f');
    KeyOfTail(t, i, f);
    KeyOfTail(t', i', f');
    PartsNulFree(t);
    PartsNulFree(i);
    PartsNulFree(t');
    PartsNulFree(i');
    if CacheKey(t, i, f) == CacheKey(t', i', f') {
      var rest, rest' := Text.Trim(i) + ['\0'] + Text.Lower(Tail(f)), Text.Trim(i') + ['\0'] + Text.Lower(Tail(f'));
      Text.CutIsUnique(Text.Trim(t), rest, Text.Trim(t'), rest', '\0');
      Text.CutIsUnique(Text.Trim(i), Text.Lower(Tail(f)), Text.Trim(i'), Text.Lower(Tail(f')), '\0');
    }
  }

  lemma FoldKeepsTrimmed(a: string, b: string)
    requires EqualFold(a, b) && Text.Trimmed(a)
    ensures Text.Trimmed(b) && |b| == |a|
  {
    assert |Text.Lower(a)| == |a| && |Text.Lower(b)| == |b|;
    if b != "" {
      assert Text.LowerChar(a[0]) == Text.Lower(a)[0] == Text.Lower(b)[0] == Text.LowerChar(b[0]);
      assert Text.LowerChar(a[|a| - 1]) == Text.Lower(a)[|a| - 1] == Text.Lower(b)[|a| - 1]
        == Text.LowerChar(b[|a| - 1]);
    }
  }

  lemma FoldParts(a: string, b: string, k: nat)
    requires EqualFold(a, b) && k < |a|
    ensures |b| == |a| && EqualFold(a[..k], b[..k]) && EqualFold(a[k + 1..], b[k + 1..])
    ensures Text.LowerChar(a[k]) == Text.LowerChar(b[k])
  {
    assert |Text.Lower(a)| == |a| && |Text.Lower(b)| == |b|;
    assert Text.Lower(a[..k]) == Text.Lower(a)[..k] && Text.Lower(b[..k]) == Text.Lower(b)[..k];
    assert Text.Lower(a[k + 1..]) == Text.Lower(a)[k + 1..] && Text.Lower(b[k + 1..]) == Text.Lower(b)[k + 1..];
    assert Text.Lower(a)[k] == Text.Lower(b)[k];
  }

  lemma TailCut(f: Filter)
    ensures Tail(f)[|f.remoteJid|] == '\0'
    ensures Tail(f)[..|f.remoteJid|] == f.remoteJid && Tail(f)[|f.remoteJid| + 1..] == f.query
  {
  }

  /** A filter with the same tail is cut at the same place, or its cut is another one of f's tail. */
  lemma SameTail(f: Filter, f': Filter)
    requires Normalized(f) && Normalized(f') && EqualFold(Tail(f), Tail(f'))
    ensures !CutsAt(f, |f'.remoteJid|) ==> EqualFold(f.remoteJid, f'.remoteJid) && EqualFold(f.query, f'.query)
    ensures CutsAt(f, |f'.remoteJid|) ==> |f'.remoteJid| < |Tail(f)|
  {
    var k := |f'.remoteJid|;
    NormalizedIsTrimmed(f');
    Text.TrimFact(f'.remoteJid);
    Text.TrimFact(f'.query);
    TailCut(f);
    TailCut(f');
    FoldParts(Tail(f'), Tail(f), k);
    FoldKeepsTrimmed(f'.remoteJid, Tail(f)[..k]);
    FoldKeepsTrimmed(f'.query, Tail(f)[k + 1..]);
  }

  /** The other filter behind an ambiguous key. */
  lemma OtherFilter(f: Filter, k: nat) returns (f': Filter)
    requires CutsAt(f, k)
    ensures Normalized(f') && Tail(f') == Tail(f) && |f'.remoteJid| != |f.remoteJid|
  {
    f' := Filter(Tail(f)[..k], Tail(f)[k + 1..]);
    Text.TrimFact(f'.remoteJid);
    Text.TrimFact(f'.query);
    Text.TrimFact("");
    assert Normalize(Request(Some(f'.remoteJid), Some(f'.query), None)) == Some(f');
    assert Tail(f) == Tail(f)[..k] + [Tail(f)[k]] + Tail(f)[k + 1..];
  }

  /** A chat that f accepts, and no filter for a JID of another length. */
  lemma AcceptedByOne(f: Filter, f': Filter)
    requires Text.Trim(f.remoteJid) == f.remoteJid && Text.Trim(f.query) == f.query
    requires |f'.remoteJid| != |f.remoteJid| && f'.remoteJid != ""
    ensures Matches(f.remoteJid, f.query, f) && !Matches(f.remoteJid, f.query, f')
  {
    assert |Text.Lower(f.remoteJid)| == |f.remoteJid| && |Text.Lower(f'.remoteJid)| == |f'.remoteJid|;
    assert Text.Lower(f.query)[0..] == Text.Lower(f.query);
  }

  lemma DifferentFilters(f: Filter, f': Filter)
    requires Normalized(f) && Normalized(f') && |f'.remoteJid| != |f.remoteJid|
    ensures exists remoteJid, pushName :: Matches(remoteJid, pushName, f) != Matches(remoteJid, pushName, f')
  {
    NormalizedIsTrimmed(f);
    NormalizedIsTrimmed(f');
    if f'.remoteJid != "" {
      AcceptedByOne(f, f');
    } else {
      AcceptedByOne(f', f);
    }
  }

  /**
   Exactly when a key is safe, for ids without NULs: every request that shares the key asks the same query if and only
   if the filter's tail has no second place to cut it. A NUL in the filter makes it unsafe only where the pieces
   around it have no space at their ends and are no longer than a filter may be.
   */
  lemma KeyIsSoundExactly(t: string, i: string, f: Filter)
    requires Normalized(f) && '\0' !in t && '\0' !in i
    ensures (forall t', i', f' ::
               Shares(t, i, f, t', i', f') ==> SameQuery(t, i, f, t', i', f'))
       <==> !Ambiguous(f)
  {
    if Ambiguous(f) {
      var k: nat :| k < |Tail(f)| && CutsAt(f, k);
      var f' := OtherFilter(f, k);
      KeyParts(t, i, f, t, i, f');
      DifferentFilters(f, f');
      assert Shares(t, i, f, t, i, f') && !SameQuery(t, i, f, t, i, f');
    } else {
      forall t', i', f' | Shares(t, i, f, t', i', f')
        ensures SameQuery(t, i, f, t', i', f')
      {
        SharersAgree(t, i, f, t', i', f');
      }
    }
  }

  /** Who shares the key of an unambiguous filter asks the same query. */
  lemma SharersAgree(t: string, i: string, f: Filter, t': string, i': string, f': Filter)
    requires Normalized(f) && Normalized(f') && !Ambiguous(f)
    requires '\0' !in t && '\0' !in i && '\0' !in t' && '\0' !in i'
    requires CacheKey(t, i, f) == CacheKey(t', i', f')
    ensures SameQuery(t, i, f, t', i', f')
  {
    KeyParts(t, i, f, t', i', f');
    SameTail(f, f');
    NormalizedIsTrimmed(f);
    NormalizedIsTrimmed(f');
    forall remoteJid, pushName ensures Matches(remoteJid, pushName, f) == Matches(remoteJid, pushName, f') {
      FoldedFiltersAgree(f, f', remoteJid, pushName);
    }
  }

  /** A filter without NULs is never ambiguous; one with a NUL need not be. */
  lemma NulFreeIsUnambiguous(f: Filter)
    requires '\0' !in f.remoteJid && '\0' !in f.query
    ensures !Ambiguous(f)
  {
    forall k: nat | k < |Tail(f)| && k != |f.remoteJid| ensures Tail(f)[k] != '\0' {
      var c := if k < |f.remoteJid| then f.remoteJid[k] else f.query[k - |f.remoteJid| - 1];
      assert Tail(f)[k] == c && (c in f.remoteJid || c in f.query);
    }
  }

  predicate HasSpaceBeside(s: string, k: nat)
    requires k < |s|
  {
    (k > 0 && Text.IsSpace(s[k - 1])) || (k + 1 < |s| && Text.IsSpace(s[k + 1]))
  }

  /** Cutting at a NUL with a space beside it would leave a piece that is not trimmed. */
  lemma SpacedIsNoCut(f: Filter, k: nat)
    requires k < |Tail(f)| && HasSpaceBeside(Tail(f), k)
    ensures !CutsAt(f, k)
  {
    var tail := Tail(f);
    if k > 0 && Text.IsSpace(tail[k - 1]) {
      assert tail[..k][|tail[..k]| - 1] == tail[k - 1] && !Text.Trimmed(tail[..k]);
    } else {
      assert tail[k + 1..][0] == tail[k + 1] && !Text.Trimmed(tail[k + 1..]);
    }
  }

  /** So a filter whose NULs all have a space beside them shares its key with no filter that asks another query. */
  lemma SpacedNulsAreHarmless(f: Filter)
    requires forall k: nat :: k < |Tail(f)| && k != |f.remoteJid| && Tail(f)[k] == '\0' ==> HasSpaceBeside(Tail(f), k)
    ensures !Ambiguous(f)
  {
    forall k: nat | k < |Tail(f)| && k != |f.remoteJid| && Tail(f)[k] == '\0' ensures !CutsAt(f, k) {
      SpacedIsNoCut(f, k);
    }
  }

  lemma SpacedNulIsUnambiguous()
    ensures !Ambiguous(Filter("x \0y", "")) && Ambiguous(Filter("x\0y", ""))
  {
    var spaced, tight := Filter("x \0y", ""), Filter("x\0y", "");
    assert Tail(spaced)[..2] == "x " && Tail(spaced)[4] == '\0';
    assert Tail(tight)[..1] == "x" && Tail(tight)[2..] == "y\0" && CutsAt(tight, 1);
  }
}
