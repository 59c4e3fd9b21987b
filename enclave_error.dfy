/**
 * The enclave error taxonomy: the four error kinds with their display texts,
 * the error wrapper that carries a kind and its cause, and the rendering of
 * the cause chain as `Error: …` / `Caused by: …` lines.
 *
 * The wrapper keeps a `failure` context whose own cause is the message given
 * at construction, so its cause chain is the kind's text followed by that
 * message. The chain is modelled as an explicit sequence of strings.
 */
module EnclaveErrors {

  datatype ErrorKind =
    | ConnectionFailure(msg: string)
    | AccessDenied(msg: string)
    | ItemNotFound
    | GeneralError(msg: string)

  // Written as two literals: the verifier cannot index into a single literal this long.
  const ConnectionFailurePrefix := "An error occurred while " + "connecting to the enclave: "
  const AccessDeniedPrefix := "Access was denied to the enclave: "
  const ItemNotFoundText := "The specified item is not found in the keyring"

  /** The text each kind displays. */
  function KindText(k: ErrorKind): (r: string)
    ensures k.ItemNotFound? ==> r == ItemNotFoundText
    ensures k.GeneralError? ==> r == k.msg
    ensures k.ConnectionFailure? ==>
      (|r| >= |ConnectionFailurePrefix| &&
       r[..|ConnectionFailurePrefix|] == ConnectionFailurePrefix && r[|ConnectionFailurePrefix|..] == k.msg)
    ensures k.AccessDenied? ==>
      (|r| >= |AccessDeniedPrefix| &&
       r[..|AccessDeniedPrefix|] == AccessDeniedPrefix && r[|AccessDeniedPrefix|..] == k.msg)
  {
    match k
    case ConnectionFailure(m) => ConnectionFailurePrefix + m
    case AccessDenied(m) => AccessDeniedPrefix + m
    case ItemNotFound => ItemNotFoundText
    case GeneralError(m) => m
  }

  /** A connection failure and an access denial never display alike, and each keeps its message. */
  lemma PrefixedKindsDistinct(k1: ErrorKind, k2: ErrorKind)
    requires k1.ConnectionFailure? || k1.AccessDenied?
    requires k2.ConnectionFailure? || k2.AccessDenied?
    ensures KindText(k1) == KindText(k2) <==> k1 == k2
  {
    var t1, t2 := KindText(k1), KindText(k2);
    if k1.ConnectionFailure? && k2.AccessDenied? {
      assert t1[1] == ConnectionFailurePrefix[1] != AccessDeniedPrefix[1] == t2[1];
    } else if k1.AccessDenied? && k2.ConnectionFailure? {
      assert t1[1] == AccessDeniedPrefix[1] != ConnectionFailurePrefix[1] == t2[1];
    }
  }

  /**
   * The display text alone does not identify the kind: a general error whose
   * message is another kind's text displays exactly like that kind. Callers
   * must branch on `Kind()`, not on the text.
   */
  lemma GeneralErrorMimicsAnyKind(k: ErrorKind)
    ensures KindText(GeneralError(KindText(k))) == KindText(k)
    ensures !k.GeneralError? ==> GeneralError(KindText(k)) != k
  {
  }

  /** The error wrapper: the kind it reports and the message it was built from. */
  datatype EnclaveError = EnclaveError(kind: ErrorKind, context: string) {

    /** The kind the error reports (a copy of the stored kind): the one whose text heads the cause chain. */
    function Kind(): (k: ErrorKind)
      ensures KindText(k) == Chain()[0]
    {
      kind
    }

    /** The cause chain in iteration order: the kind's text, then the construction message. */
    function Chain(): seq<string> {
      [KindText(kind), context]
    }
  }

  /** `EnclaveError::from_msg(kind, msg)`, with `msg` given by its display text. */
  function FromMsg(kind: ErrorKind, msg: string): (e: EnclaveError)
    ensures e.Kind() == kind
    ensures e.Chain() == [KindText(kind), msg]
  {
    EnclaveError(kind, msg)
  }

  /** `EnclaveError::from(kind)`: the conversion with an empty message. */
  function FromKind(kind: ErrorKind): (e: EnclaveError)
    ensures e.Kind() == kind
    ensures e.Chain() == [KindText(kind), ""]
  {
    EnclaveError(kind, "")
  }

  function LinePrefix(first: bool): string {
    if first then "Error: " else "Caused by: "
  }

  /** The text written for `chain` when its first entry is (`first`) or is not the head of the whole chain. */
  function RenderFrom(chain: seq<string>, first: bool): string {
    if chain == [] then "" else LinePrefix(first) + chain[0] + "\n" + RenderFrom(chain[1..], false)
  }

  /** What `Display for EnclaveError` writes for a cause chain. */
  function ChainText(chain: seq<string>): string {
    RenderFrom(chain, true)
  }

  /** `Display for EnclaveError`: renders the error's cause chain. */
  method Display(e: EnclaveError) returns (text: string)
    ensures text == ChainText(e.Chain())
  {
    text := WriteChain(e.Chain());
  }

  /** The loop of `Display for EnclaveError`: one line per chain entry, a flag marking the first. */
  method WriteChain(chain: seq<string>) returns (text: string)
    ensures text == ChainText(chain)
  {
    var first := true;
    text := "";
    var i := 0;
    while i < |chain|
      invariant 0 <= i <= |chain|
      invariant first == (i == 0)
      invariant text + RenderFrom(chain[i..], first) == ChainText(chain)
    {
      var cause := chain[i];
      ghost var rest := RenderFrom(chain[i + 1..], false);
      assert chain[i..][1..] == chain[i + 1..];
      assert RenderFrom(chain[i..], first) == LinePrefix(first) + cause + "\n" + rest;
      var line: string;
      if first {
        first := false;
        line := "Error: " + cause + "\n";
      } else {
        line := "Caused by: " + cause + "\n";
      }
      assert text + line + rest == ChainText(chain);
      text := text + line;
      i := i + 1;
    }
    assert chain[i..] == [];
  }

  /** The lines of a text: split at each newline; a final unterminated piece is a line too. */
  function SplitLines(s: string): seq<string> {
    if s == [] then []
    else if s[0] == '\n' then [""] + SplitLines(s[1..])
    else
      var rest := SplitLines(s[1..]);
      if rest == [] then [[s[0]]] else [[s[0]] + rest[0]] + rest[1..]
  }

  lemma {:induction false} SplitLinesCons(x: string, t: string)
    requires '\n' !in x
    ensures SplitLines(x + "\n" + t) == [x] + SplitLines(t)
    decreases |x|
  {
    var s := x + "\n" + t;
    if x == [] {
      assert s == "\n" + t;
      assert s[1..] == t;
    } else {
      assert s[1..] == x[1..] + "\n" + t;
      SplitLinesCons(x[1..], t);
      assert [s[0]] + x[1..] == x;
    }
  }

  predicate NoNewlines(chain: seq<string>) {
    forall i :: 0 <= i < |chain| ==> '\n' !in chain[i]
  }

  lemma {:induction false} RenderFromLines(chain: seq<string>, first: bool)
    requires NoNewlines(chain)
    ensures |SplitLines(RenderFrom(chain, first))| == |chain|
    ensures forall i :: 0 <= i < |chain| ==>
      SplitLines(RenderFrom(chain, first))[i] == LinePrefix(first && i == 0) + chain[i]
    decreases |chain|
  {
    if chain != [] {
      var line := LinePrefix(first) + chain[0];
      assert '\n' !in LinePrefix(first);
      assert '\n' !in line;
      RenderFromLines(chain[1..], false);
      SplitLinesCons(line, RenderFrom(chain[1..], false));
      assert RenderFrom(chain, first) == line + "\n" + RenderFrom(chain[1..], false);
    }
  }

  /**
   * Rendering an n-entry chain gives exactly n lines, in chain order: the first
   * is `Error: ` and the entry, each later one `Caused by: ` and the entry.
   * (Entries are single-line text; an entry holding a newline adds lines.)
   */
  lemma ChainLines(chain: seq<string>)
    requires NoNewlines(chain)
    ensures |SplitLines(ChainText(chain))| == |chain|
    ensures |chain| > 0 ==> SplitLines(ChainText(chain))[0] == "Error: " + chain[0]
    ensures forall i :: 1 <= i < |chain| ==> SplitLines(ChainText(chain))[i] == "Caused by: " + chain[i]
  {
    RenderFromLines(chain, true);
  }

  /** Every line of the rendering is newline-terminated: the text ends with a newline unless the chain is empty. */
  lemma {:induction false} RenderFromTerminated(chain: seq<string>, first: bool)
    ensures chain == [] <==> RenderFrom(chain, first) == ""
    ensures chain != [] ==> RenderFrom(chain, first)[|RenderFrom(chain, first)| - 1] == '\n'
    decreases |chain|
  {
    if chain != [] {
      RenderFromTerminated(chain[1..], false);
    }
  }

  /** An error built by `from_msg` displays as its kind's text caused by the message. */
  lemma FromMsgLines(kind: ErrorKind, msg: string)
    requires '\n' !in KindText(kind) && '\n' !in msg
    ensures SplitLines(ChainText(FromMsg(kind, msg).Chain())) == ["Error: " + KindText(kind), "Caused by: " + msg]
  {
    var chain := FromMsg(kind, msg).Chain();
    ChainLines(chain);
  }

  /**
   * An error converted from a bare kind displays a trailing `Caused by: `
   * line with nothing after it: the conversion's empty message is still a
   * cause in the chain.
   */
  lemma FromKindDanglingCause(kind: ErrorKind)
    ensures ChainText(FromKind(kind).Chain()) == "Error: " + KindText(kind) + "\nCaused by: \n"
  {
    var chain := FromKind(kind).Chain();
    assert chain[1..][1..] == [];
    assert RenderFrom(chain[1..], false) == "Caused by: " + "" + "\n" + "";
  }
}
