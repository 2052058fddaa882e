/** The two length limits of pipeline/publish_metadata.py: the description's bytes and the tags' characters. */
module PublishMetadata {
  import opened Prelude

  const DESCRIPTION_MAX_BYTES := 5000
  const TAGS_MAX_TOTAL_CHARS := 500

  // ---- UTF-8, as section 3 of RFC 3629 defines it ----------------------------------------------------------

  /** A Unicode scalar value: a code point that is not a surrogate. */
  type Scalar = c: int | 0 <= c < 0x11_0000 && !(0xD800 <= c < 0xE000)
  type Byte = b: int | 0 <= b < 256

  function EncodeOne(c: Scalar): (bytes: seq<Byte>)
    ensures 1 <= |bytes| <= 4
  {
    if c < 0x80 then [c]
    else if c < 0x800 then [0xC0 + c / 64, 0x80 + c % 64]
    else if c < 0x1_0000 then [0xE0 + c / 64 / 64, 0x80 + c / 64 % 64, 0x80 + c % 64]
    else [0xF0 + c / 64 / 64 / 64, 0x80 + c / 64 / 64 % 64, 0x80 + c / 64 % 64, 0x80 + c % 64]
  }

  function Encode(text: seq<Scalar>): seq<Byte> {
    if text == [] then [] else EncodeOne(text[0]) + Encode(text[1..])
  }

  /** How many bytes a leading byte announces; 0 for a byte that cannot lead. */
  function Announced(lead: Byte): nat {
    if lead < 0x80 then 1
    else if 0xC0 <= lead < 0xE0 then 2
    else if 0xE0 <= lead < 0xF0 then 3
    else if 0xF0 <= lead < 0xF8 then 4
    else 0
  }

  /** The bits of a sequence of the announced length. */
  function Bits(bytes: seq<Byte>): int
    requires 1 <= |bytes| <= 4
  {
    var b: seq<int> := bytes;
    if |b| == 1 then b[0]
    else if |b| == 2 then (b[0] - 0xC0) * 64 + (b[1] - 0x80)
    else if |b| == 3 then ((b[0] - 0xE0) * 64 + (b[1] - 0x80)) * 64 + (b[2] - 0x80)
    else (((b[0] - 0xF0) * 64 + (b[1] - 0x80)) * 64 + (b[2] - 0x80)) * 64 + (b[3] - 0x80)
  }

  /** The scalar these bytes encode in the only well-formed way, if they do. */
  function DecodeOne(bytes: seq<Byte>): Option<Scalar>
    requires 1 <= |bytes| <= 4
  {
    var c := Bits(bytes);
    if 0 <= c < 0x11_0000 && !(0xD800 <= c < 0xE000) && EncodeOne(c) == bytes then Some(c) else None
  }

  /** bytes.decode("utf-8", errors="ignore"): ill-formed bytes are dropped one at a time. */
  function DecodeIgnoring(bytes: seq<Byte>): seq<Scalar> {
    if bytes == [] then []
    else
      var n := Announced(bytes[0]);
      if 1 <= n <= |bytes| && DecodeOne(bytes[..n]).Some? then
        [DecodeOne(bytes[..n]).value] + DecodeIgnoring(bytes[n..])
      else DecodeIgnoring(bytes[1..])
  }

  function LimitDescription(text: seq<Scalar>): seq<Scalar> {
    var encoded := Encode(text);
    if |encoded| > DESCRIPTION_MAX_BYTES then DecodeIgnoring(encoded[..DESCRIPTION_MAX_BYTES]) else text
  }

  lemma LeadAnnouncesLength(c: Scalar)
    ensures Announced(EncodeOne(c)[0]) == |EncodeOne(c)|
    ensures Bits(EncodeOne(c)) == c
    ensures forall i :: 1 <= i < |EncodeOne(c)| ==> 0x80 <= EncodeOne(c)[i] < 0xC0
  {
  }

  /** A whole encoded character at the front is read back. */
  lemma DecodesHead(c: Scalar, rest: seq<Byte>)
    ensures DecodeIgnoring(EncodeOne(c) + rest) == [c] + DecodeIgnoring(rest)
  {
    LeadAnnouncesLength(c);
    var bytes := EncodeOne(c) + rest;
    assert bytes[..|EncodeOne(c)|] == EncodeOne(c) && bytes[|EncodeOne(c)|..] == rest;
  }

  lemma {:induction false} ContinuationsVanish(bytes: seq<Byte>)
    requires forall i :: 0 <= i < |bytes| ==> 0x80 <= bytes[i] < 0xC0
    ensures DecodeIgnoring(bytes) == []
  {
    if bytes != [] { ContinuationsVanish(bytes[1..]); }
  }

  /** A character cut short leaves nothing behind. */
  lemma CutCharacterVanishes(c: Scalar, m: nat)
    requires m < |EncodeOne(c)|
    ensures DecodeIgnoring(EncodeOne(c)[..m]) == []
  {
    LeadAnnouncesLength(c);
    if m > 0 {
      var cut := EncodeOne(c)[..m];
      ContinuationsVanish(cut[1..]);
    }
  }

  /** Round trip: decoding inverts encoding. */
  lemma {:induction false} DecodeInvertsEncode(text: seq<Scalar>)
    ensures DecodeIgnoring(Encode(text)) == text
  {
    if text != [] {
      DecodesHead(text[0], Encode(text[1..]));
      DecodeInvertsEncode(text[1..]);
    }
  }

  /** Cutting the encoding at m bytes and decoding keeps exactly the prefixes that fit in m bytes. */
  lemma {:induction false} CutKeepsWhatFits(text: seq<Scalar>, m: nat)
    requires m <= |Encode(text)|
    ensures var kept := DecodeIgnoring(Encode(text)[..m]);
            && kept <= text && |Encode(kept)| <= m
            && forall n :: |kept| < n <= |text| ==> |Encode(text[..n])| > m
  {
    if text != [] {
      var head, tail := EncodeOne(text[0]), Encode(text[1..]);
      if m < |head| {
        assert Encode(text)[..m] == head[..m];
        CutCharacterVanishes(text[0], m);
        forall n | 0 < n <= |text| ensures |Encode(text[..n])| > m { assert text[..n][0] == text[0]; }
      } else {
        assert Encode(text)[..m] == head + tail[..m - |head|];
        DecodesHead(text[0], tail[..m - |head|]);
        CutKeepsWhatFits(text[1..], m - |head|);
        var kept := DecodeIgnoring(tail[..m - |head|]);
        assert ([text[0]] + kept)[1..] == kept;
        forall n | |kept| + 1 < n <= |text| ensures |Encode(text[..n])| > m {
          assert text[..n][1..] == text[1..][..n - 1];
        }
      }
    }
  }

  /** The description is the longest prefix of the full text whose encoding fits. */
  lemma DescriptionIsLongestFit(text: seq<Scalar>)
    ensures var kept := LimitDescription(text);
            && kept <= text && |Encode(kept)| <= 5000
            && forall n :: |kept| < n <= |text| ==> |Encode(text[..n])| > 5000
  {
    if |Encode(text)| > DESCRIPTION_MAX_BYTES { CutKeepsWhatFits(text, DESCRIPTION_MAX_BYTES); }
  }

  // ---- tags ----------------------------------------------------------------------------------------------

  /** Every word once, where it is first seen. */
  function FirstSeen(words: seq<string>): seq<string> {
    if words == [] then []
    else
      var before, last := FirstSeen(words[..|words| - 1]), words[|words| - 1];
      if last in before then before else before + [last]
  }

  lemma {:induction false} FirstSeenOnceEach(words: seq<string>)
    ensures forall w :: w in FirstSeen(words) <==> w in words
    ensures forall i, j :: 0 <= i < j < |FirstSeen(words)| ==> FirstSeen(words)[i] != FirstSeen(words)[j]
  {
    if words != [] {
      FirstSeenOnceEach(words[..|words| - 1]);
      assert words == words[..|words| - 1] + [words[|words| - 1]];
    }
  }

  /** The words that appear at their own place for the first time, before the k-th. */
  function Firsts(words: seq<string>, k: nat): set<nat>
    requires k <= |words|
  {
    set j: nat | j < k && words[j] !in words[..j]
  }

  lemma OneMoreWord(words: seq<string>, n: nat)
    requires n < |words|
    ensures |Firsts(words, n + 1)| == |Firsts(words, n)| + if words[n] in words[..n] then 0 else 1
  {
    var before, after := Firsts(words, n), Firsts(words, n + 1);
    if words[n] in words[..n] { assert after == before; } else { assert after == before + {n}; }
  }

  lemma SameBeginning(words: seq<string>, n: nat, k: nat)
    requires k <= n <= |words|
    ensures words[..n][..k] == words[..k] && Firsts(words[..n], k) == Firsts(words, k)
  {
    assert forall j :: 0 <= j <= k ==> words[..n][..j] == words[..j];
  }

  /** Every word stands behind exactly the words first seen before it. */
  lemma {:induction false} FirstSeenInOrder(words: seq<string>, k: nat)
    requires k <= |words|
    ensures |FirstSeen(words)| == |Firsts(words, |words|)|
    ensures k < |words| && words[k] !in words[..k] ==>
              |Firsts(words, k)| < |FirstSeen(words)| && FirstSeen(words)[|Firsts(words, k)|] == words[k]
  {
    if words != [] {
      var n := |words| - 1;
      FirstSeenInOrder(words[..n], if k < n then k else n);
      FirstSeenOnceEach(words[..n]);
      SameBeginning(words, n, n);
      OneMoreWord(words, n);
      if k < n { SameBeginning(words, n, k); }
    }
  }

  /** ",".join(tags) */
  function Joined(tags: seq<string>): string {
    if tags == [] then ""
    else if |tags| == 1 then tags[0]
    else Joined(tags[..|tags| - 1]) + "," + tags[|tags| - 1]
  }

  /** The total is what the tags take up once they are joined. */
  lemma {:induction false} TotalIsJoinedLength(tags: seq<string>)
    ensures TotalLength(tags) == |Joined(tags)|
  {
    if |tags| > 1 { TotalIsJoinedLength(tags[..|tags| - 1]); }
    else if |tags| == 1 { assert TotalLength(tags[..0]) == 0; }
  }

  /** The tags' lengths and the commas between them. */
  function TotalLength(tags: seq<string>): nat {
    if tags == [] then 0
    else TotalLength(tags[..|tags| - 1]) + |tags[|tags| - 1]| + if |tags| > 1 then 1 else 0
  }

  lemma {:induction false} LongerListsAreLonger(tags: seq<string>, m: nat, n: nat)
    requires m <= n <= |tags|
    ensures TotalLength(tags[..m]) <= TotalLength(tags[..n])
  {
    if m < n {
      LongerListsAreLonger(tags, m, n - 1);
      assert tags[..n][..n - 1] == tags[..n - 1];
    }
  }

  /** The cleaned, lower-cased words worth tagging, in order. */
  function Candidates(words: seq<string>, clean: string -> string, lower: string -> string): seq<string> {
    if words == [] then []
    else
      var last := words[|words| - 1];
      Candidates(words[..|words| - 1], clean, lower) + if |clean(last)| >= 2 then [lower(clean(last))] else []
  }

  /** Word by word, in order: a word of at least two characters once cleaned counts, lower-cased. */
  lemma {:induction false} CandidatesWordByWord(words: seq<string>, more: seq<string>, clean: string -> string,
                                                lower: string -> string)
    ensures Candidates(words + more, clean, lower) == Candidates(words, clean, lower) + Candidates(more, clean, lower)
    ensures |words| == 1 ==>
              Candidates(words, clean, lower) == if |clean(words[0])| < 2 then [] else [lower(clean(words[0]))]
  {
    if more == [] {
      assert words + more == words;
    } else {
      var n := |more| - 1;
      CandidatesWordByWord(words, more[..n], clean, lower);
      assert (words + more)[..|words| + n] == words + more[..n];
    }
    if |words| == 1 { assert Candidates(words[..0], clean, lower) == []; }
  }

  method TagCandidates(words: seq<string>, clean: string -> string, lower: string -> string)
    returns (candidates: seq<string>)
    ensures candidates == Candidates(words, clean, lower)
  {
    candidates := [];
    for k := 0 to |words|
      invariant candidates == Candidates(words[..k], clean, lower)
    {
      assert words[..k + 1][..k] == words[..k];
      if |clean(words[k])| >= 2 { candidates := candidates + [lower(clean(words[k]))]; }
    }
    assert words[..|words|] == words;
  }

  method Deduplicate(candidates: seq<string>) returns (deduped: seq<string>)
    ensures deduped == FirstSeen(candidates)
  {
    deduped := [];
    for k := 0 to |candidates|
      invariant deduped == FirstSeen(candidates[..k])
    {
      assert candidates[..k + 1][..k] == candidates[..k];
      if candidates[k] !in deduped { deduped := deduped + [candidates[k]]; }
    }
    assert candidates[..|candidates|] == candidates;
  }

  /** The longest prefix of the first-seen list that fits, commas included. */
  method BuildTags(words: seq<string>, clean: string -> string, lower: string -> string) returns (tags: seq<string>)
    ensures var candidates := Candidates(words, clean, lower);
            && tags <= FirstSeen(candidates)
            && |Joined(tags)| <= 500
            && (forall n :: |tags| < n <= |FirstSeen(candidates)| ==>
                  |Joined(FirstSeen(candidates)[..n])| > 500)
    ensures forall i, j :: 0 <= i < j < |tags| ==> tags[i] != tags[j]
  {
    var candidates := TagCandidates(words, clean, lower);
    var deduped := Deduplicate(candidates);
    FirstSeenOnceEach(candidates);
    tags := FitTags(deduped);
    TotalIsJoinedLength(tags);
    forall n | |tags| < n <= |deduped| ensures |Joined(deduped[..n])| > 500 { TotalIsJoinedLength(deduped[..n]); }
  }

  method FitTags(deduped: seq<string>) returns (tags: seq<string>)
    ensures tags <= deduped && TotalLength(tags) <= TAGS_MAX_TOTAL_CHARS
    ensures forall n :: |tags| < n <= |deduped| ==> TotalLength(deduped[..n]) > TAGS_MAX_TOTAL_CHARS
  {
    tags := [];
    var total := 0;
    for k := 0 to |deduped|
      invariant tags == deduped[..k] && total == TotalLength(tags) <= TAGS_MAX_TOTAL_CHARS
    {
      var added := |deduped[k]| + if tags != [] then 1 else 0;
      assert deduped[..k + 1][..k] == deduped[..k];
      if total + added > TAGS_MAX_TOTAL_CHARS {
        forall n | k < n <= |deduped| ensures TotalLength(deduped[..n]) > TAGS_MAX_TOTAL_CHARS {
          LongerListsAreLonger(deduped, k + 1, n);
        }
        break;
      }
      tags := tags + [deduped[k]];
      total := total + added;
    }
  }
}
