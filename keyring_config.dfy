/**
 * Configuration for connecting to an enclave, and its redacted rendering.
 *
 * `OsKeyRingConfig` shows the keyring path, but shows the username and the
 * password only as a fixed mask when present (`None` when absent). So the
 * rendering reveals the path and which secrets are set, and nothing else.
 * `ParseConfigText` reads exactly that back from a rendering.
 */
module KeyRingConfig {
  import opened Wrappers
  import DebugString

  /** Settings for the operating system's keyring; `None` means "default keyring" or "prompt the user". */
  datatype OsKeyRingConfig = OsKeyRingConfig(path: Option<string>, username: Option<string>, password: Option<string>)

  /** Which enclave to connect to. */
  datatype EnclaveConfig = OsKeyRing(config: OsKeyRingConfig) | YubiHsm

  /** What a rendering may reveal: the path and whether each secret is set. */
  datatype ConfigView = ConfigView(path: Option<string>, hasUsername: bool, hasPassword: bool)

  function Visible(c: OsKeyRingConfig): ConfigView {
    ConfigView(c.path, c.username.Some?, c.password.Some?)
  }

  const Mask := "*********"
  const Header := "OsKeyRingConfig (path: "
  const UsernameLabel := ", username: "
  const PasswordLabel := ", password: "

  /** `{:?}` of an optional string. */
  function OptionText(o: Option<string>): (r: string)
    ensures o.None? <==> r == "None"
  {
    match o
    case None => "None"
    case Some(s) => "Some(" + DebugString.Quote(s) + ")"
  }

  /** A secret is replaced by the mask before it is formatted. */
  function SecretText(secret: Option<string>): (r: string)
    ensures secret.None? ==> r == "None"
    ensures secret.Some? ==> r == "Some(\"*********\")"
  {
    assert DebugString.Escape(Mask) == Mask;
    OptionText(if secret.Some? then Some(Mask) else None)
  }

  /** `Display for OsKeyRingConfig`; `ConfigTextShowsOnlyVisible` states what it reveals. */
  function ConfigText(c: OsKeyRingConfig): (r: string)
    ensures Header <= r && r[|r| - 1] == ')'
  {
    Header + OptionText(c.path) + SecretsText(c)
  }

  /** The rendered secrets of a config: everything after its path. */
  function SecretsText(c: OsKeyRingConfig): string {
    UsernameLabel + SecretText(c.username) + PasswordLabel + SecretText(c.password) + ")"
  }

  /** The text after prefix `p` of `t`, when `p` is a prefix of `t`. */
  function StripPrefix(p: string, t: string): (r: Option<string>)
    ensures r.Some? <==> p <= t
    ensures r.Some? ==> t == p + r.value
  {
    if p <= t then Some(t[|p|..]) else None
  }

  /** Reads one `{:?}`-rendered optional string off the front of `t`. */
  function ParseOption(t: string): Option<(Option<string>, string)> {
    if "None" <= t then Some((None, t[4..]))
    else if "Some(" <= t then
      match DebugString.Unquote(t[5..])
      case None => None
      case Some((s, rest)) =>
        if ")" <= rest then Some((Some(s), rest[1..])) else None
    else None
  }

  /** Reads the rendered secrets, the part after the path, back to which of them are present. */
  function ParseSecrets(t: string): Option<(bool, bool)> {
    match StripPrefix(UsernameLabel, t)
    case None => None
    case Some(t1) =>
      match ParseOption(t1)
      case None => None
      case Some((user, t2)) =>
        match StripPrefix(PasswordLabel, t2)
        case None => None
        case Some(t3) =>
          match ParseOption(t3)
          case None => None
          case Some((pass, t4)) =>
            if t4 == ")" then Some((user.Some?, pass.Some?)) else None
  }

  /** Reads a rendered config back to what it shows; `None` for any other text. */
  function ParseConfigText(t: string): Option<ConfigView> {
    match StripPrefix(Header, t)
    case None => None
    case Some(t1) =>
      match ParseOption(t1)
      case None => None
      case Some((path, t2)) =>
        match ParseSecrets(t2)
        case None => None
        case Some((hasUsername, hasPassword)) => Some(ConfigView(path, hasUsername, hasPassword))
  }

  lemma Regroup(a: string, b: string, c: string, d: string, e: string)
    ensures a + b + c + d + e == a + (b + (c + (d + e)))
  {
  }

  lemma Regroup3(a: string, b: string, c: string)
    ensures a + b + c == a + (b + c)
  {
  }

  lemma StripConcat(p: string, t: string)
    ensures StripPrefix(p, p + t) == Some(t)
  {
    assert (p + t)[..|p|] == p;
    assert (p + t)[|p|..] == t;
  }

  lemma ParseOptionText(o: Option<string>, rest: string)
    ensures ParseOption(OptionText(o) + rest) == Some((o, rest))
  {
    var t := OptionText(o) + rest;
    match o
    case None =>
      assert t[..4] == "None";
      assert t[4..] == rest;
    case Some(s) =>
      assert t == "Some(" + (DebugString.Quote(s) + (")" + rest));
      assert !("None" <= t) by { assert t[0] == 'S' != 'N' == "None"[0]; }
      assert t[..5] == "Some(";
      assert t[5..] == DebugString.Quote(s) + (")" + rest);
      DebugString.QuoteRoundTrip(s, ")" + rest);
      assert (")" + rest)[1..] == rest;
  }

  lemma ParseSecretsText(c: OsKeyRingConfig)
    ensures ParseSecrets(SecretsText(c)) == Some((c.username.Some?, c.password.Some?))
  {
    var user := if c.username.Some? then Some(Mask) else None;
    var pass := if c.password.Some? then Some(Mask) else None;
    var t4 := ")";
    var t3 := OptionText(pass) + t4;
    var t2 := PasswordLabel + t3;
    var t1 := OptionText(user) + t2;
    Regroup(UsernameLabel, OptionText(user), PasswordLabel, OptionText(pass), t4);
    StripConcat(UsernameLabel, t1);
    ParseOptionText(user, t2);
    StripConcat(PasswordLabel, t3);
    ParseOptionText(pass, t4);
  }

  /**
   * Round trip: parsing a rendering yields exactly what the rendering is
   * meant to show, the path and which secrets are present.
   */
  lemma ParseConfigTextRoundTrip(c: OsKeyRingConfig)
    ensures ParseConfigText(ConfigText(c)) == Some(Visible(c))
  {
    var t2 := SecretsText(c);
    var t1 := OptionText(c.path) + t2;
    Regroup3(Header, OptionText(c.path), t2);
    StripConcat(Header, t1);
    ParseOptionText(c.path, t2);
    ParseSecretsText(c);
  }

  /**
   * Secrets do not influence the rendering, and the rendering shows the rest:
   * two configs render alike exactly when they have the same path and the
   * same secrets present, whatever the secret values are.
   */
  lemma ConfigTextShowsOnlyVisible(c1: OsKeyRingConfig, c2: OsKeyRingConfig)
    ensures ConfigText(c1) == ConfigText(c2) <==> Visible(c1) == Visible(c2)
  {
    if ConfigText(c1) == ConfigText(c2) {
      ParseConfigTextRoundTrip(c1);
      ParseConfigTextRoundTrip(c2);
    }
  }

  const EnclaveHeader := "EnclaveConfig ("

  /** `EnclaveHeader` written `n` times in a row. */
  function Repeated(n: nat): string {
    if n == 0 then "" else EnclaveHeader + Repeated(n - 1)
  }

  /**
   * `Display for EnclaveConfig` as written: it writes `EnclaveConfig (` and
   * then formats the config itself, which starts the same call again.
   * `depth` is the number of nested calls the stack allows. The result is the
   * text written to the formatter and whether the call completed; a call
   * that has no stack left writes nothing and does not complete.
   */
  function EnclaveConfigTextAsWritten(c: EnclaveConfig, depth: nat): (string, bool)
    decreases depth
  {
    if depth == 0 then ("", false)
    else
      var (inner, completed) := EnclaveConfigTextAsWritten(c, depth - 1);
      if completed then (EnclaveHeader + inner + ")", true)
      else (EnclaveHeader + inner, false)
  }

  /**
   * However deep the stack, the as-written rendering never completes: it has
   * written `EnclaveConfig (` once per nested call when the stack runs out.
   */
  lemma {:induction false} EnclaveConfigTextNeverReturns(c: EnclaveConfig, depth: nat)
    ensures EnclaveConfigTextAsWritten(c, depth) == (Repeated(depth), false)
    decreases depth
  {
    if depth > 0 {
      EnclaveConfigTextNeverReturns(c, depth - 1);
    }
  }

  /** `Display for EnclaveConfig` as intended: the active variant's rendering, in the same wrapper. */
  function EnclaveConfigText(c: EnclaveConfig): (r: string)
    ensures EnclaveHeader <= r && r[|r| - 1] == ')'
    ensures c.YubiHsm? <==> r == EnclaveHeader + "YubiHsm)"
  {
    match c
    case OsKeyRing(k) => EnclaveHeader + ConfigText(k) + ")"
    case YubiHsm => EnclaveHeader + "YubiHsm" + ")"
  }

  function VisibleEnclave(c: EnclaveConfig): Option<ConfigView> {
    match c
    case OsKeyRing(k) => Some(Visible(k))
    case YubiHsm => None
  }

  /** The corrected rendering keeps the redaction: it shows the variant, the path and which secrets are present. */
  lemma EnclaveConfigTextShowsOnlyVisible(c1: EnclaveConfig, c2: EnclaveConfig)
    ensures EnclaveConfigText(c1) == EnclaveConfigText(c2) <==> VisibleEnclave(c1) == VisibleEnclave(c2)
  {
    var t1, t2 := EnclaveConfigText(c1), EnclaveConfigText(c2);
    var n := |EnclaveHeader|;
    if t1 == t2 {
      var inner1, inner2 := t1[n..|t1| - 1], t2[n..|t2| - 1];
      assert inner1 == (if c1.OsKeyRing? then ConfigText(c1.config) else "YubiHsm");
      assert inner2 == (if c2.OsKeyRing? then ConfigText(c2.config) else "YubiHsm");
      if c1.OsKeyRing? && c2.OsKeyRing? {
        ConfigTextShowsOnlyVisible(c1.config, c2.config);
      }
    } else if c1.OsKeyRing? && c2.OsKeyRing? {
      ConfigTextShowsOnlyVisible(c1.config, c2.config);
    }
  }
}
