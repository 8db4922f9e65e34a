/** The values of the transcription pipeline: tokens, the one segment built
    per volume from the transcription service's chunks, transcripts and the
    archive, and the selection of volumes. */
module Transcribe {
  import opened Wrappers
  import opened Seqs
  import opened FidUtils

  /** Times are copied, never computed. */
  type Seconds = real

  /** A date, standing for `new Date()` or a date received from a service. */
  type Timestamp = int

  /** A token as the transcription service returns it, with its confidence. */
  datatype RawToken = RawToken(start: Seconds, end: Seconds, text: string, confidence: Option<real>)

  /** One chunk of the service's result; its token list may be absent. */
  datatype Chunk = Chunk(tokens: Option<seq<RawToken>>)

  datatype Token = Token(start: Seconds, end: Seconds, text: string)

  datatype Segment = Segment(end: Seconds, start: Seconds, text: string, tokens: seq<Token>)

  /** The shape written to `<volume>.json`. */
  datatype Transcript = Transcript(segments: seq<Segment>, timestamp: Timestamp, urls: Option<seq<string>>, volume: int)

  /** The archive of a collection. */
  datatype TranscriptSeries = TranscriptSeries(contractVersion: string, createdAt: Timestamp,
                                               lastUpdatedAt: Timestamp, transcripts: seq<Transcript>)

  const ContractVersion: string := "v1.0"

  function Reduce(t: RawToken): Token
  {
    Token(t.start, t.end, t.text)
  }

  /** `chunks.flatMap(({ tokens }) => tokens!.map(reduce))`; `None` when a
      chunk has no token list, where `tokens!.map` throws. */
  function ChunkTokens(chunks: seq<Chunk>): Option<seq<Token>>
  {
    if chunks == [] then Some([])
    else if chunks[0].tokens.None? then None
    else
      match ChunkTokens(chunks[1..])
      case None => None
      case Some(rest) => Some(ReduceAll(chunks[0].tokens.value) + rest)
  }

  function ReduceAll(ts: seq<RawToken>): (r: seq<Token>)
    ensures |r| == |ts|
    ensures forall i :: 0 <= i < |ts| ==> r[i] == Reduce(ts[i])
  {
    if ts == [] then [] else [Reduce(ts[0])] + ReduceAll(ts[1..])
  }

  function Texts(tokens: seq<Token>): (r: seq<string>)
    ensures |r| == |tokens|
    ensures forall i :: 0 <= i < |tokens| ==> r[i] == tokens[i].text
  {
    if tokens == [] then [] else [tokens[0].text] + Texts(tokens[1..])
  }

  /** Every raw token of every chunk, in chunk order. */
  function AllRawTokens(chunks: seq<Chunk>): seq<RawToken>
  {
    if chunks == [] then [] else (if chunks[0].tokens.Some? then chunks[0].tokens.value else []) + AllRawTokens(chunks[1..])
  }

  /** The segment invariant: it spans its tokens from the first token's
      start to the last token's end and its text is the tokens' texts
      joined by single spaces. */
  predicate WellFormedSegment(s: Segment)
  {
    |s.tokens| >= 1 &&
    s.start == s.tokens[0].start &&
    s.end == s.tokens[|s.tokens| - 1].end &&
    s.text == Join(" ", Texts(s.tokens))
  }

  /** The single segment of a transcribed volume. */
  function BuildSegment(tokens: seq<Token>): (s: Segment)
    requires |tokens| >= 1
    ensures WellFormedSegment(s) && s.tokens == tokens
  {
    Segment(tokens[|tokens| - 1].end, tokens[0].start, Join(" ", Texts(tokens)), tokens)
  }

  /** The tokens exist exactly when every chunk has a token list, and then
      they are all the chunks' tokens in order, each reduced to its start,
      end and text. */
  lemma {:induction false} ChunkTokensExactly(chunks: seq<Chunk>)
    ensures ChunkTokens(chunks).None? <==> exists i :: 0 <= i < |chunks| && chunks[i].tokens.None?
    ensures ChunkTokens(chunks).Some? ==> ChunkTokens(chunks).value == ReduceAll(AllRawTokens(chunks))
  {
    if chunks != [] {
      ChunkTokensExactly(chunks[1..]);
      assert forall i :: 1 <= i < |chunks| ==> chunks[i] == chunks[1..][i - 1];
      if chunks[0].tokens.Some? && ChunkTokens(chunks[1..]).Some? {
        ReduceAllAppend(chunks[0].tokens.value, AllRawTokens(chunks[1..]));
      }
    }
  }

  lemma {:induction false} ReduceAllAppend(a: seq<RawToken>, b: seq<RawToken>)
    ensures ReduceAll(a + b) == ReduceAll(a) + ReduceAll(b)
  {
    if a != [] {
      assert (a + b)[1..] == a[1..] + b;
      ReduceAllAppend(a[1..], b);
    }
  }

  /** Splitting the segment text on spaces gives back the token texts when
      no token text contains a space. */
  lemma SegmentTextRoundTrip(tokens: seq<Token>)
    requires |tokens| >= 1
    requires forall i :: 0 <= i < |tokens| ==> ' ' !in tokens[i].text
    ensures SplitOnSpace(BuildSegment(tokens).text) == Texts(tokens)
  {
    SplitJoinRoundTrip(Texts(tokens));
  }

  // ---------------------------------------------------------------------
  // Volume selection

  /** What `parseInt` made of the requested volume. */
  datatype ParsedNumber = NaN | Number(n: int)

  /** A requested volume that is present, not 0 and not NaN selects. */
  predicate SelectsVolume(selected: Option<ParsedNumber>)
  {
    selected.Some? && selected.value.Number? && selected.value.n != 0
  }

  function SelectVolumes(fids: seq<ForeignId>, selected: Option<ParsedNumber>): seq<ForeignId>
  {
    if SelectsVolume(selected) then Filter(fids, (f: ForeignId) => f.volume == selected.value.n) else fids
  }

  /** A selecting volume keeps, in order and with their multiplicity, the
      fids of exactly that volume; any other request keeps every fid. */
  lemma SelectVolumesExactly(fids: seq<ForeignId>, selected: Option<ParsedNumber>)
    ensures IsSubsequence(SelectVolumes(fids, selected), fids)
    ensures SelectsVolume(selected) ==>
              forall f :: multiset(SelectVolumes(fids, selected))[f] ==
                          if f.volume == selected.value.n then multiset(fids)[f] else 0
    ensures SelectsVolume(selected) ==>
              forall f :: f in SelectVolumes(fids, selected) <==> f in fids && f.volume == selected.value.n
    ensures !SelectsVolume(selected) ==> SelectVolumes(fids, selected) == fids
  {
    if SelectsVolume(selected) {
      var p := (f: ForeignId) => f.volume == selected.value.n;
      FilterIsSubsequence(fids, p);
      FilterMultiset(fids, p);
    } else {
      AllKept(fids);
      FilterIsSubsequence(fids, _ => true);
    }
  }

  lemma {:induction false} AllKept(s: seq<ForeignId>)
    ensures Filter(s, _ => true) == s
  {
    if s != [] { AllKept(s[1..]); }
  }
}
