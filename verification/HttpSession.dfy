/** The grammars as a peer sees them: what comes of a stream that is read in pieces. */
module HttpSession {
  import opened Wrappers
  import opened HttpMachine
  import opened HttpHeaders
  import opened HttpParse
  import opened HttpRoundTrip
  import opened HttpPrint
  import opened HttpStream
  import opened HttpConnection
  import opened HttpGrammar

  /** However a stream is cut into reads, a head of `n` bytes is found exactly if its first `n` bytes are one. */
  lemma HeadIsFound(k: Kind, f: Filled, chunks: seq<Text>, n: nat)
    ensures var h, s := ReadHead(Reader(k), f, [], chunks), Join(chunks);
      (h.verdict == 1 && h.fields.length == n) <==> n <= |s| && IsHead(k, s[..n])
  {
    var s := Join(chunks);
    ChunksDoNotMatter(Reader(k), f, chunks);
    AcceptsGrammar(k, s, n);
    ReaderIsTamed(k);
    Verdicts(Reader(k), START, s, 0);
  }

  /** The stream starts with a head, or a head starts with the stream. */
  ghost predicate StartsHead(k: Kind, s: Text) {
    (exists n :: 0 <= n <= |s| && IsHead(k, s[..n])) || (exists t :: t != [] && IsHead(k, s + t))
  }

  /** A server drops nothing, however the stream is cut into reads, exactly if it starts as a request does. */
  lemma NothingDropped(w: Wording, v: Version, chunks: seq<Text>, budget: nat)
    requires WordingOk(w)
    ensures StartsHead(Request, Join(chunks)) <==>
      Settle(Reader(Request), w, v, chunks, budget) == Session(true, v, chunks, [])
  {
    SettlesAtOnce(Reader(Request), w, v, chunks, budget);
    RejectsOthers(Request, Join(chunks));
  }
}
