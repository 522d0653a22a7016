/** How much of a query a candidate's fields cover: distinct words, and distinct pairs of neighbours.

  What counts as a stop word, and the terms a query is analysed into, come from outside.
 */
module FieldRanking {
  import opened KnowledgeProjection

  type Pair = (string, string)

  // ---------- Words of a field ----------

  predicate WordChar(c: char) { 'a' <= c <= 'z' || '0' <= c <= '9' }

  function WordEnd(text: string, i: nat): (e: nat)
    requires i <= |text|
    ensures i <= e <= |text|
    decreases |text| - i
  {
    if i < |text| && WordChar(text[i]) then WordEnd(text, i + 1) else i
  }

  function WordsFrom(text: string, stop: set<string>, i: nat): seq<string>
    requires i <= |text|
    decreases |text| - i
  {
    if i == |text| then []
    else if !WordChar(text[i]) then WordsFrom(text, stop, i + 1)
    else
      var e := WordEnd(text, i + 1);
      (if e - i > 1 && text[i..e] !in stop then [text[i..e]] else []) + WordsFrom(text, stop, e)
  }

  function FieldWords(text: string, stop: set<string>): seq<string> { WordsFrom(Lower(text), stop, 0) }

  method ScanWord(text: string, start: nat) returns (end: nat)
    requires start < |text|
    ensures end == WordEnd(text, start + 1)
  {
    end := start + 1;
    while end < |text| && WordChar(text[end])
      invariant start < end <= |text| && WordEnd(text, end) == WordEnd(text, start + 1)
    {
      end := end + 1;
    }
  }

  /** The words of a field, found in one scan. */
  method VisitFieldWords(raw: string, stop: set<string>) returns (words: seq<string>)
    ensures words == FieldWords(raw, stop)
  {
    var text := Lower(raw);
    words := [];
    var i := 0;
    ghost var all := WordsFrom(text, stop, 0);
    hide WordEnd, Lower, WordChar;
    while i < |text|
      invariant 0 <= i <= |text| && words + WordsFrom(text, stop, i) == all
      decreases |text| - i
    {
      if !WordChar(text[i]) {
        i := i + 1;
      } else {
        var start := i;
        i := ScanWord(text, start);
        var word := text[start..i];
        ghost var rest := WordsFrom(text, stop, i);
        assert words + ([word] + rest) == words + [word] + rest && [] + rest == rest;
        if |word| > 1 && word !in stop { words := words + [word]; }
      }
    }
  }

  // ---------- Which words those are ----------

  datatype Span = Span(start: nat, end: nat)

  /** An unbroken run of word characters that cannot be made longer. */
  ghost predicate IsRun(text: string, s: Span) {
    s.start < s.end <= |text| && (forall k :: s.start <= k < s.end ==> WordChar(text[k]))
    && (s.start == 0 || !WordChar(text[s.start - 1])) && (s.end == |text| || !WordChar(text[s.end]))
  }

  ghost predicate IsWord(text: string, stop: set<string>, s: Span) {
    IsRun(text, s) && s.end - s.start > 1 && text[s.start..s.end] !in stop
  }

  /** The words are those at these places, which come one after another. */
  ghost predicate WordsAt(text: string, stop: set<string>, words: seq<string>, at: seq<Span>) {
    |at| == |words|
    && (forall k :: 0 <= k < |at| ==> IsWord(text, stop, at[k]) && words[k] == text[at[k].start..at[k].end])
    && forall j, k :: 0 <= j < k < |at| ==> at[j].end < at[k].start
  }

  lemma {:induction false} WordEndIs(text: string, i: nat)
    requires i <= |text|
    ensures forall k :: i <= k < WordEnd(text, i) ==> WordChar(text[k])
    ensures WordEnd(text, i) == |text| || !WordChar(text[WordEnd(text, i)])
    decreases |text| - i
  {
    if i < |text| && WordChar(text[i]) { WordEndIs(text, i + 1); }
  }

  /** No run starts inside a run, and two runs with one start are one. */
  lemma OneRun(text: string, s: Span, t: Span)
    requires IsRun(text, s) && IsRun(text, t) && s.start <= t.start < s.end
    ensures s == t
  {
  }

  lemma WordAhead(text: string, stop: set<string>, own: Span, words: seq<string>, rest: seq<Span>)
    requires WordsAt(text, stop, words, rest) && IsWord(text, stop, own)
    requires rest == [] || own.end < rest[0].start
    ensures WordsAt(text, stop, [text[own.start..own.end]] + words, [own] + rest)
  {
    hide IsWord;
    forall k | 0 < k < |[own] + rest| ensures own.end < ([own] + rest)[k].start {
      if k > 1 { assert rest[0].end < rest[k - 1].start && rest[0].start < rest[0].end by { InOrder(text, stop, rest[0]); } }
    }
  }

  lemma InOrder(text: string, stop: set<string>, s: Span)
    requires IsWord(text, stop, s)
    ensures s.start < s.end
  {
  }

  /** Every run from here on is the one that starts here, or starts after its end. */
  lemma RunsOnwards(text: string, own: Span, s: Span)
    requires IsRun(text, own) && IsRun(text, s) && own.start <= s.start
    ensures s == own || own.end < s.start
  {
    if s.start < own.end { OneRun(text, own, s); }
  }

  ghost predicate At(text: string, i: nat) {
    i <= |text| && (i == 0 || i == |text| || !WordChar(text[i - 1]) || !WordChar(text[i]))
  }

  ghost predicate AllFound(text: string, stop: set<string>, i: nat, at: seq<Span>) {
    forall s: Span :: IsWord(text, stop, s) && i <= s.start ==> s in at
  }

  lemma OwnRun(text: string, i: nat)
    requires At(text, i) && i < |text| && WordChar(text[i])
    ensures IsRun(text, Span(i, WordEnd(text, i + 1))) && At(text, WordEnd(text, i + 1))
  {
    WordEndIs(text, i + 1);
  }

  lemma FoundSkipping(text: string, stop: set<string>, i: nat, at: seq<Span>)
    requires i < |text| && !WordChar(text[i]) && AllFound(text, stop, i + 1, at)
    ensures AllFound(text, stop, i, at)
  {
  }

  lemma FoundWith(text: string, stop: set<string>, own: Span, rest: seq<Span>, at: seq<Span>)
    requires IsRun(text, own) && AllFound(text, stop, own.end, rest)
    requires at == (if IsWord(text, stop, own) then [own] else []) + rest
    ensures AllFound(text, stop, own.start, at)
  {
    hide IsRun;
    forall s: Span | IsWord(text, stop, s) && own.start <= s.start ensures s in at { RunsOnwards(text, own, s); }
  }

  lemma {:induction false} WordsOnwards(text: string, stop: set<string>, i: nat) returns (at: seq<Span>)
    requires At(text, i)
    ensures WordsAt(text, stop, WordsFrom(text, stop, i), at) && AllFound(text, stop, i, at)
    ensures at == [] || i <= at[0].start
    decreases |text| - i
  {
    hide WordChar, WordEnd, IsRun, WordsAt, AllFound;
    if i == |text| {
      at := [];
      NoWordsAtEnd(text, stop);
    } else if !WordChar(text[i]) {
      at := WordsOnwards(text, stop, i + 1);
      FoundSkipping(text, stop, i, at);
    } else {
      var own := Span(i, WordEnd(text, i + 1));
      OwnRun(text, i);
      var rest := WordsOnwards(text, stop, own.end);
      at := (if IsWord(text, stop, own) then [own] else []) + rest;
      FoundWith(text, stop, own, rest, at);
      var words := WordsFrom(text, stop, own.end);
      if IsWord(text, stop, own) {
        if rest != [] { NextApart(text, stop, own, words, rest); }
        WordAhead(text, stop, own, words, rest);
      } else {
        assert at == rest && [] + words == words;
      }
    }
  }

  lemma NoWordsAtEnd(text: string, stop: set<string>)
    ensures WordsAt(text, stop, [], []) && AllFound(text, stop, |text|, [])
  {
  }

  lemma NextApart(text: string, stop: set<string>, own: Span, words: seq<string>, rest: seq<Span>)
    requires IsRun(text, own) && WordsAt(text, stop, words, rest) && rest != [] && own.end <= rest[0].start
    ensures own.end < rest[0].start
  {
    RunsOnwards(text, own, rest[0]);
  }

  /** The words of a field are exactly its longest runs of ASCII letters and digits, lower-cased and in
      order, of two characters or more and not in the list of stop words. */
  lemma FieldWordsAre(raw: string, stop: set<string>) returns (at: seq<Span>)
    ensures WordsAt(Lower(raw), stop, FieldWords(raw, stop), at)
    ensures forall s: Span :: IsWord(Lower(raw), stop, s) ==> s in at
    ensures forall c: char :: WordChar(c) <==> c in "abcdefghijklmnopqrstuvwxyz" || c in "0123456789"
  {
    Letters();
    Digits();
    hide IsWord, WordsAt;
    at := WordsOnwards(Lower(raw), stop, 0);
  }

  lemma Letters()
    ensures forall c: char :: 'a' <= c <= 'z' <==> c in "abcdefghijklmnopqrstuvwxyz"
  {
    forall c: char | 'a' <= c <= 'z' ensures c in "abcdefghijklmnopqrstuvwxyz" {
      assert "abcdefghijklmnopqrstuvwxyz"[c as int - 'a' as int] == c;
    }
  }

  lemma Digits()
    ensures forall c: char :: '0' <= c <= '9' <==> c in "0123456789"
  {
    forall c: char | '0' <= c <= '9' ensures c in "0123456789" {
      assert "0123456789"[c as int - '0' as int] == c;
    }
  }

  lemma {:induction false} LowerAt(s: string, i: nat)
    requires i < |s|
    ensures |Lower(s)| == |s|
    ensures if 'A' <= s[i] <= 'Z' then Lower(s)[i] as int - 'a' as int == s[i] as int - 'A' as int else Lower(s)[i] == s[i]
  {
    if i > 0 {
      LowerAt(s[1..], i - 1);
    } else if |s| > 1 {
      LowerAt(s[1..], 0);
    }
  }

  // ---------- A query, indexed ----------

  /** Every key has a place of its own, and there are as many places as keys. */
  ghost predicate Indexed<K>(index: map<K, nat>) {
    (forall k :: k in index ==> index[k] < |index|) && forall j, k :: j in index && k in index && j != k ==> index[j] != index[k]
  }

  datatype FieldQuery = FieldQuery(terms: map<string, nat>, pairs: map<Pair, nat>)

  method IndexOf<K(==)>(keys: seq<K>) returns (index: map<K, nat>)
    ensures Indexed(index) && forall k :: k in index <==> k in keys
  {
    index := map[];
    for i := 0 to |keys|
      invariant Indexed(index) && forall k :: k in index <==> k in keys[..i]
    {
      assert keys[..i + 1] == keys[..i] + [keys[i]];
      if keys[i] !in index {
        assert index[keys[i] := |index|].Keys == index.Keys + {keys[i]};
        index := index[keys[i] := |index|];
      }
    }
    assert keys[..|keys|] == keys;
  }

  function PairsOf(words: seq<string>): seq<Pair> {
    if |words| < 2 then [] else PairsOf(words[..|words| - 1]) + [(words[|words| - 2], words[|words| - 1])]
  }

  ghost predicate PairAt(words: seq<string>, p: Pair, k: nat) { k + 1 < |words| && p == (words[k], words[k + 1]) }

  /** The pairs are exactly the neighbours. */
  lemma {:induction false} PairsAre(words: seq<string>, p: Pair)
    ensures p in PairsOf(words) <==> exists k: nat :: PairAt(words, p, k)
    decreases |words|
  {
    if |words| >= 2 {
      var n := |words| - 1;
      PairsAre(words[..n], p);
      assert PairAt(words, (words[n - 1], words[n]), n - 1);
      forall k: nat | k < n - 1 ensures PairAt(words, p, k) <==> PairAt(words[..n], p, k) {
        assert words[..n][k] == words[k] && words[..n][k + 1] == words[k + 1];
      }
    }
  }

  /** Words from the analysed terms, pairs from the question as asked. */
  method NewFieldQuery(terms: string, question: string, stop: set<string>) returns (q: FieldQuery)
    ensures Indexed(q.terms) && forall w :: w in q.terms <==> w in FieldWords(terms, stop)
    ensures Indexed(q.pairs) && forall p :: p in q.pairs <==> p in PairsOf(FieldWords(question, stop))
  {
    var words := VisitFieldWords(terms, stop);
    var index := IndexOf(words);
    var asked := VisitFieldWords(question, stop);
    var pairs: seq<Pair> := [];
    var i := 0;
    while i < |asked|
      invariant 0 <= i <= |asked| && pairs == PairsOf(asked[..i])
    {
      assert asked[..i + 1][..i] == asked[..i];
      if i > 0 { pairs := pairs + [(asked[i - 1], asked[i])]; }
      i := i + 1;
    }
    assert asked[..i] == asked;
    var pairIndex := IndexOf(pairs);
    q := FieldQuery(index, pairIndex);
  }

  // ---------- What was seen, in one word or in an array ----------

  predicate BitSet(mask: bv64, i: bv7)
    requires i < 64
  {
    mask & (1 << i) != 0
  }

  lemma BitsApart(mask: bv64, i: bv7, j: bv7)
    requires i < 64 && j < 64
    ensures BitSet(mask | (1 << j), i) <==> i == j || BitSet(mask, i)
  {
    OneBitEach(i, j);
    assert (mask | (1 << j)) & (1 << i) == (mask & (1 << i)) | ((1 << j) & (1 << i));
  }

  lemma OneBitEach(i: bv7, j: bv7)
    requires i < 64 && j < 64
    ensures ((1 as bv64) << j) & ((1 as bv64) << i) != 0 <==> i == j
  {
  }

  function ShiftOf(i: nat): bv7
    requires i < 64
  {
    i as bv7
  }

  function IndexOfShift(b: bv7): nat { b as nat }

  lemma ShiftKeepsIndex(i: nat)
    requires i < 64
    ensures ShiftOf(i) < 64 && IndexOfShift(ShiftOf(i)) == i
  {
  }

  predicate InMask(mask: bv64, i: nat)
    requires i < 64
  {
    ShiftOf(i) < 64 && BitSet(mask, ShiftOf(i))
  }

  function WithBit(mask: bv64, i: nat): bv64
    requires i < 64
  {
    if ShiftOf(i) < 64 then mask | ((1 as bv64) << ShiftOf(i)) else mask
  }

  lemma MaskWith(mask: bv64, i: nat, j: nat)
    requires i < 64 && j < 64
    ensures InMask(WithBit(mask, j), i) <==> i == j || InMask(mask, i)
  {
    ShiftKeepsIndex(i);
    ShiftKeepsIndex(j);
    hide ShiftOf, IndexOfShift, BitSet;
    BitsApart(mask, ShiftOf(i), ShiftOf(j));
  }

  lemma EmptyMask(i: nat)
    requires i < 64
    ensures !InMask(0, i)
  {
  }

  /** The places seen so far: bits of one machine word, or flags when there are more than 64. */
  class Seen {
    const size: nat
    var mask: bv64
    const long: array?<bool>
    ghost var members: set<nat>

    ghost predicate Valid()
      reads this, long
    {
      (forall i :: i in members ==> i < size)
      && (if long != null then long.Length == size && forall i :: 0 <= i < size ==> (long[i] <==> i in members)
          else size <= 64 && forall i :: 0 <= i < size ==> (InMask(mask, i) <==> i in members))
    }

    constructor (n: nat)
      ensures Valid() && size == n && members == {} && (long != null ==> fresh(long))
    {
      size := n;
      mask := 0;
      members := {};
      if n > 64 {
        long := new bool[n](_ => false);
      } else {
        long := null;
      }
      new;
      if long == null {
        forall i | 0 <= i < size ensures !InMask(mask, i) { EmptyMask(i); }
      }
    }

    /** Whether this place is seen for the first time; from now on it is seen. */
    method First(index: nat) returns (first: bool)
      requires Valid() && index < size
      modifies this, long
      ensures Valid() && first == (index !in old(members)) && members == old(members) + {index}
    {
      members := members + {index};
      if long != null {
        first := !long[index];
        long[index] := true;
      } else {
        first := !InMask(mask, index);
        forall i | 0 <= i < size ensures InMask(WithBit(mask, index), i) <==> i == index || InMask(mask, i) {
          MaskWith(mask, i, index);
        }
        hide InMask, WithBit;
        mask := WithBit(mask, index);
      }
    }
  }

  // ---------- Matching ----------

  ghost function Places<K>(index: map<K, nat>, hit: set<K>): set<nat> { set k | k in index && k in hit :: index[k] }

  lemma {:induction false} AsManyPlaces<K>(index: map<K, nat>, hit: set<K>)
    requires Indexed(index) && hit <= index.Keys
    ensures |Places(index, hit)| == |hit|
    decreases |hit|
  {
    if hit == {} {
      assert Places(index, hit) == {};
    } else {
      var k :| k in hit;
      AsManyPlaces(index, hit - {k});
      assert Places(index, hit) == Places(index, hit - {k}) + {index[k]};
      assert index[k] !in Places(index, hit - {k});
    }
  }

  lemma PlacesOf<K>(index: map<K, nat>, hit: set<K>)
    requires Indexed(index)
    ensures |Places(index, hit)| == |index.Keys * hit| <= |index|
  {
    assert Places(index, hit) == Places(index, index.Keys * hit);
    AsManyPlaces(index, index.Keys * hit);
    AtMost(index.Keys * hit, index.Keys);
    assert |index| == |index.Keys|;
  }

  lemma {:induction false} AtMost<K>(a: set<K>, b: set<K>)
    requires a <= b
    ensures |a| <= |b|
    decreases |a|
  {
    if a != {} {
      var x :| x in a;
      AtMost(a - {x}, b - {x});
    }
  }

  lemma OnePlaceMore<K>(index: map<K, nat>, hit: set<K>, k: K)
    requires Indexed(index)
    ensures Places(index, hit + {k}) == Places(index, hit) + (if k in index then {index[k]} else {})
  {
  }

  /** Every word of every field, and every pair of neighbours within one field. */
  ghost function WordsSeen(fields: seq<string>, stop: set<string>): set<string> {
    set f, w | 0 <= f < |fields| && w in FieldWords(fields[f], stop) :: w
  }

  ghost function PairsSeen(fields: seq<string>, stop: set<string>): set<Pair> {
    set f, p | 0 <= f < |fields| && p in PairsOf(FieldWords(fields[f], stop)) :: p
  }

  ghost function SetOf<T>(s: seq<T>): set<T> { set x | x in s }

  lemma FieldMore(fields: seq<string>, stop: set<string>, n: nat, words: seq<string>)
    requires n < |fields| && words == FieldWords(fields[n], stop)
    ensures WordsBy(fields, n + 1, stop) == WordsBy(fields, n, stop) + SetOf(words)
    ensures PairsBy(fields, n + 1, stop) == PairsBy(fields, n, stop) + SetOf(PairsOf(words))
  {
    hide FieldWords, PairsOf;
    assert forall f :: 0 <= f < n ==> fields[..n + 1][f] == fields[..n][f] == fields[f];
    assert fields[..n + 1][n] == fields[n];
  }

  /** Count a key the first time it is seen. */
  method CountFirst<K(==)>(index: map<K, nat>, key: K, seen: Seen, count: nat, ghost hit: set<K>) returns (after: nat)
    requires Indexed(index) && seen.Valid() && seen.size == |index| && seen.members == Places(index, hit) && count == |seen.members|
    modifies seen, seen.long
    ensures seen.Valid() && seen.members == Places(index, hit + {key}) && after == |seen.members|
  {
    after := count;
    OnePlaceMore(index, hit, key);
    hide Places;
    if key in index {
      var first := seen.First(index[key]);
      if first { after := count + 1; }
    }
  }

  /** One field: its words, and its neighbours; a new field starts without a previous word. */
  method MatchField(q: FieldQuery, words: seq<string>, seenWords: Seen, seenPairs: Seen, wordCount: nat, pairCount: nat,
                    ghost hitWords: set<string>, ghost hitPairs: set<Pair>)
    returns (wordCount': nat, pairCount': nat)
    requires Indexed(q.terms) && Indexed(q.pairs) && seenWords != seenPairs && seenWords.Valid() && seenPairs.Valid()
    requires seenWords.long == null || seenWords.long != seenPairs.long
    requires seenWords.size == |q.terms| && seenWords.members == Places(q.terms, hitWords) && wordCount == |seenWords.members|
    requires seenPairs.size == |q.pairs| && seenPairs.members == Places(q.pairs, hitPairs) && pairCount == |seenPairs.members|
    modifies seenWords, seenWords.long, seenPairs, seenPairs.long
    ensures seenWords.Valid() && seenPairs.Valid()
    ensures seenWords.members == Places(q.terms, hitWords + SetOf(words)) && wordCount' == |seenWords.members|
    ensures seenPairs.members == Places(q.pairs, hitPairs + SetOf(PairsOf(words))) && pairCount' == |seenPairs.members|
  {
    wordCount', pairCount' := wordCount, pairCount;
    var k := 0;
    WordsStart(words, hitWords, hitPairs);
    hide *;
    while k < |words|
      invariant 0 <= k <= |words| && seenWords.Valid() && seenPairs.Valid()
      invariant seenWords.members == Places(q.terms, WordsUpTo(words, k, hitWords)) && wordCount' == |seenWords.members|
      invariant seenPairs.members == Places(q.pairs, PairsUpTo(words, k, hitPairs)) && pairCount' == |seenPairs.members|
    {
      wordCount' := CountFirst(q.terms, words[k], seenWords, wordCount', WordsUpTo(words, k, hitWords));
      if k > 0 {
        pairCount' := CountFirst(q.pairs, (words[k - 1], words[k]), seenPairs, pairCount', PairsUpTo(words, k, hitPairs));
      }
      WordMore(words, k, hitWords, hitPairs);
      k := k + 1;
    }
    WordsAll(words, hitWords, hitPairs);
  }

  ghost function WordsUpTo(words: seq<string>, k: nat, hit: set<string>): set<string>
    requires k <= |words|
  {
    hit + SetOf(words[..k])
  }

  ghost function PairsUpTo(words: seq<string>, k: nat, hit: set<Pair>): set<Pair>
    requires k <= |words|
  {
    hit + SetOf(PairsOf(words[..k]))
  }

  lemma WordsStart(words: seq<string>, hitWords: set<string>, hitPairs: set<Pair>)
    ensures WordsUpTo(words, 0, hitWords) == hitWords && PairsUpTo(words, 0, hitPairs) == hitPairs
  {
  }

  lemma WordsAll(words: seq<string>, hitWords: set<string>, hitPairs: set<Pair>)
    ensures WordsUpTo(words, |words|, hitWords) == hitWords + SetOf(words)
    ensures PairsUpTo(words, |words|, hitPairs) == hitPairs + SetOf(PairsOf(words))
  {
    assert words[..|words|] == words;
  }

  lemma WordMore(words: seq<string>, k: nat, hitWords: set<string>, hitPairs: set<Pair>)
    requires k < |words|
    ensures WordsUpTo(words, k + 1, hitWords) == WordsUpTo(words, k, hitWords) + {words[k]}
    ensures PairsUpTo(words, k + 1, hitPairs)
         == if k > 0 then PairsUpTo(words, k, hitPairs) + {(words[k - 1], words[k])} else PairsUpTo(words, k, hitPairs)
  {
    assert words[..k + 1] == words[..k] + [words[k]];
    assert words[..k + 1][..k] == words[..k];
  }

  /** Scan the fields once, counting each of the query's words and pairs the first time it is seen. */
  method ScanFields(q: FieldQuery, fields: seq<string>, stop: set<string>, seenWords: Seen, seenPairs: Seen)
    returns (wordCount: nat, pairCount: nat)
    requires Indexed(q.terms) && Indexed(q.pairs) && seenWords != seenPairs && seenWords.Valid() && seenPairs.Valid()
    requires seenWords.long == null || seenWords.long != seenPairs.long
    requires seenWords.size == |q.terms| && seenWords.members == {} && seenPairs.size == |q.pairs| && seenPairs.members == {}
    modifies seenWords, seenWords.long, seenPairs, seenPairs.long
    ensures wordCount == |Places(q.terms, WordsBy(fields, |fields|, stop))|
    ensures pairCount == |Places(q.pairs, PairsBy(fields, |fields|, stop))|
  {
    wordCount, pairCount := 0, 0;
    NothingSeen(q, fields, stop);
    var n := 0;
    hide *;
    while n < |fields|
      invariant 0 <= n <= |fields| && seenWords.Valid() && seenPairs.Valid()
      invariant seenWords.members == Places(q.terms, WordsBy(fields, n, stop)) && wordCount == |seenWords.members|
      invariant seenPairs.members == Places(q.pairs, PairsBy(fields, n, stop)) && pairCount == |seenPairs.members|
    {
      var words := VisitFieldWords(fields[n], stop);
      wordCount, pairCount := MatchField(q, words, seenWords, seenPairs, wordCount, pairCount,
                                         WordsBy(fields, n, stop), PairsBy(fields, n, stop));
      FieldMore(fields, stop, n, words);
      n := n + 1;
    }
  }

  method CountMatches(q: FieldQuery, fields: seq<string>, stop: set<string>) returns (wordCount: nat, pairCount: nat)
    requires Indexed(q.terms) && Indexed(q.pairs)
    ensures wordCount == |q.terms.Keys * WordsSeen(fields, stop)| <= |q.terms|
    ensures pairCount == |q.pairs.Keys * PairsSeen(fields, stop)| <= |q.pairs|
  {
    hide *;
    var seenWords := new Seen(|q.terms|);
    var seenPairs := new Seen(|q.pairs|);
    wordCount, pairCount := ScanFields(q, fields, stop, seenWords, seenPairs);
    AllSeen(q, fields, stop);
  }

  ghost function WordsBy(fields: seq<string>, n: nat, stop: set<string>): set<string>
    requires n <= |fields|
  {
    WordsSeen(fields[..n], stop)
  }

  ghost function PairsBy(fields: seq<string>, n: nat, stop: set<string>): set<Pair>
    requires n <= |fields|
  {
    PairsSeen(fields[..n], stop)
  }

  lemma NothingSeen(q: FieldQuery, fields: seq<string>, stop: set<string>)
    ensures Places(q.terms, WordsBy(fields, 0, stop)) == {} && Places(q.pairs, PairsBy(fields, 0, stop)) == {}
  {
    assert WordsSeen(fields[..0], stop) == {} && PairsSeen(fields[..0], stop) == {};
  }

  lemma AllSeen(q: FieldQuery, fields: seq<string>, stop: set<string>)
    requires Indexed(q.terms) && Indexed(q.pairs)
    ensures |Places(q.terms, WordsBy(fields, |fields|, stop))| == |q.terms.Keys * WordsSeen(fields, stop)| <= |q.terms|
    ensures |Places(q.pairs, PairsBy(fields, |fields|, stop))| == |q.pairs.Keys * PairsSeen(fields, stop)| <= |q.pairs|
  {
    assert fields[..|fields|] == fields;
    PlacesOf(q.terms, WordsSeen(fields, stop));
    PlacesOf(q.pairs, PairsSeen(fields, stop));
  }

  /** The fraction of a query's words, and of its pairs, that occur: each once however often it does. */
  method Match(q: FieldQuery, fields: seq<string>, stop: set<string>) returns (coverage: real, pairs: real)
    requires Indexed(q.terms) && Indexed(q.pairs)
    ensures 0.0 <= coverage <= 1.0 && 0.0 <= pairs <= 1.0
    ensures coverage == if |q.terms| == 0 then 0.0 else |q.terms.Keys * WordsSeen(fields, stop)| as real / |q.terms| as real
    ensures pairs == if |q.pairs| == 0 then 0.0 else |q.pairs.Keys * PairsSeen(fields, stop)| as real / |q.pairs| as real
  {
    var wordCount, pairCount := CountMatches(q, fields, stop);
    coverage, pairs := Fraction(wordCount, |q.terms|), Fraction(pairCount, |q.pairs|);
  }

  function Fraction(part: nat, whole: nat): (f: real)
    requires part <= whole
    ensures 0.0 <= f <= 1.0
  {
    if whole == 0 then 0.0
    else
      assert part as real <= whole as real;
      part as real / whole as real
  }
}
