# Enclave errors and keyring configuration (mayaguez `storage::security`)

This project models the error and configuration layer of mayaguez's secure
enclave abstraction, from `src/storage/security/mod.rs`, and proves its
properties in Dafny.

- **Error taxonomy** (`EnclaveErrors`). There are four error kinds: connection
  failure, access denied, item not found, and general error. Item not found
  displays a fixed text. Connection failure and access denied display a fixed
  prefix followed by their message. General error displays only its message. An `EnclaveError` wraps a kind and the message it was
  built from, and `Kind()` returns the stored kind. The `failure` crate's cause
  chain is modelled as an explicit sequence: the kind's text, then the message.
  The message is `""` when the error comes from converting a bare kind.
- **Chain rendering**. `Display for EnclaveError` is the method
  `WriteChain`. It is a loop with a first-entry flag, and it is proved against
  the function `ChainText`. When no entry contains a newline, an n-entry
  chain renders as exactly n lines, in chain order. The first line is `Error: …` and every later line is
  `Caused by: …`.
- **Platform status codes** (`PlatformStatus`). This is the macOS Security
  framework translation. Code −128 (`errSecUserCanceled`) gives `AccessDenied`.
  Its message is the framework's text in Rust debug quoting. Code −25300
  (`errSecItemNotFound`) gives `ItemNotFound`. Every other code gives
  `GeneralError("Unknown error")`. The status code is an `int`. The framework
  error's `to_string()` is a string parameter.
- **Debug quoting** (`DebugString`). This is Rust's `{:?}` rendering of a
  string. The decoder `Unquote` reads a quoted string back.
- **Redacted configuration** (`KeyRingConfig`). `Display for OsKeyRingConfig`
  shows the keyring path. A present username or password shows as
  `Some("*********")` and an absent one as `None`. `ParseConfigText` reads a
  rendering back to the path and the presence of each secret. This proves that
  the rendering shows exactly these things and nothing about the secret values.
- **Key catalog** (`KeyCatalog`). The key and algorithm descriptors, as
  datatypes.

A consequence of the two-entry chain, proved in `FromKindDanglingCause`: an
error converted from a bare kind renders with a final line that is only
`Caused by: `. This includes every error produced by the platform translation.

Some properties one might expect of this layer do not hold of the code:
- The code has no operation that wraps an error in further context. Every
  chain has two entries.
- The path is shown in full, not reduced to a file name.
- Nothing in the code zeroes the secrets when the config is dropped.
- `EnclaveKey` does not implement equality.
- A masked secret can still appear in the rendering as text. A password `*`
  occurs inside the mask, for example. What holds is that the rendering does
  not depend on the secret values, and that is what is proved.

## Model

| member | source | states |
|---|---|---|
| `EnclaveErrors.KindText` | src/storage/security/mod.rs:46-67 | `ItemNotFound` shows its fixed text. `GeneralError` shows exactly its message. `ConnectionFailure` and `AccessDenied` show their fixed prefix, and the message is exactly the rest. |
| `EnclaveErrors.PrefixedKindsDistinct` | src/storage/security/mod.rs:48-58 | A connection failure and an access denial never display alike. Within each of the two kinds, equal texts mean equal messages. |
| `EnclaveErrors.GeneralErrorMimicsAnyKind` | src/storage/security/mod.rs:62-67 | A general error whose message is another kind's text displays exactly like that kind. The text alone does not determine the kind. |
| `EnclaveErrors.EnclaveError.Kind` | src/storage/security/mod.rs:89-91 | `kind()` returns the kind whose text heads the cause chain. `FromMsg` and `FromKind` state that it is the kind given at construction. |
| `EnclaveErrors.FromMsg` | src/storage/security/mod.rs:79-91 | `kind()` of `from_msg(k, m)` is exactly `k`, whatever `m` is. The chain is the kind's text, then `m`. |
| `EnclaveErrors.FromKind` | src/storage/security/mod.rs:89-99 | `kind()` of an error converted from `k` is exactly `k`. The chain is the kind's text, then the empty message. |
| `EnclaveErrors.WriteChain` | src/storage/security/mod.rs:114-124 | The loop with its `first` flag writes exactly `ChainText(chain)`. |
| `EnclaveErrors.Display` | src/storage/security/mod.rs:112-126 | Displaying an error writes the rendering of its cause chain. |
| `EnclaveErrors.ChainLines` | src/storage/security/mod.rs:114-123 | For single-line entries, an n-entry chain renders as exactly n lines. Line 0 is `Error: ` plus entry 0, and line i > 0 is `Caused by: ` plus entry i, in chain order. |
| `EnclaveErrors.RenderFromTerminated` | src/storage/security/mod.rs:119-121 | The rendering is empty exactly when the chain is empty. Otherwise it ends with a newline. |
| `EnclaveErrors.FromMsgLines` | src/storage/security/mod.rs:79-126 | When neither the kind's text nor `m` contains a newline, an error from `from_msg(k, m)` renders as two lines: `Error: ` plus the kind's text, then `Caused by: ` plus `m`. |
| `EnclaveErrors.FromKindDanglingCause` | src/storage/security/mod.rs:94-126 | An error converted from a kind renders as its `Error:` line followed by an empty `Caused by: ` line. |
| `PlatformStatus.Classify` | src/storage/security/mod.rs:131-141 | The result is `AccessDenied` iff the code is −128, and `ItemNotFound` iff the code is −25300. It is `GeneralError` iff the code is neither, and then the message is exactly `"Unknown error"`. It is never `ConnectionFailure`. For `AccessDenied` the message is exactly the `{:?}` quoting of the framework's text. The function is total. |
| `PlatformStatus.FromPlatformError` | src/storage/security/mod.rs:129-143 | The translated error's kind is the classification of the code. Its chain is built by the kind conversion, so the message is empty. |
| `PlatformStatus.AccessDeniedKeepsDescription` | src/storage/security/mod.rs:132-134 | For −128 the kind is `AccessDenied`, and its message is exactly the `{:?}` quoting of the framework's text. That message decodes back to exactly the text. |
| `PlatformStatus.AccessDeniedDistinguishesDescriptions` | src/storage/security/mod.rs:132-134 | Two −128 translations are equal iff the framework texts are equal. |
| `PlatformStatus.UnknownCodesDiscardDetail` | src/storage/security/mod.rs:137-140 | All unknown codes translate to one and the same error, whatever the code and the framework text. |
| `DebugString.Quote` | src/storage/security/mod.rs:133 | `{:?}` of a string: the escaped text between double quotes. `QuoteRoundTrip` and `QuoteInjective` state that it loses nothing. |
| `DebugString.UnescapeEscape` | src/storage/security/mod.rs:133 | Escaped text followed by a closing quote decodes to the original string. What follows the quote is left untouched. |
| `DebugString.QuoteRoundTrip` | src/storage/security/mod.rs:133 | `Unquote` reads `{:?}` of any string back from the front of any text. |
| `DebugString.QuoteInjective` | src/storage/security/mod.rs:133 | Two strings have the same `{:?}` rendering iff they are equal. |
| `DebugString.DecodeEscapeChar` | src/storage/security/mod.rs:133 | Every escape sequence decodes to the character it stands for and consumes exactly its own length. |
| `DebugString.HexRoundTrip` | src/storage/security/mod.rs:133 | The hexadecimal digits of a `\u{..}` escape read back to the character's code. |
| `KeyRingConfig.SecretText` | src/storage/security/mod.rs:198-199 | A present secret renders as `Some("*********")`, whatever its value. An absent one renders as `None`. |
| `KeyRingConfig.ConfigText` | src/storage/security/mod.rs:193-201 | The rendering of a config: `OsKeyRingConfig (path: …` up to a closing `)`. What it reveals is stated by `ParseConfigTextRoundTrip` and `ConfigTextShowsOnlyVisible`. |
| `KeyRingConfig.ParseOptionText` | src/storage/security/mod.rs:196-199 | `{:?}` of an optional string reads back from the front of any text. |
| `KeyRingConfig.ParseConfigTextRoundTrip` | src/storage/security/mod.rs:193-201 | Parsing the rendering of a config yields exactly its path and whether each secret is present. |
| `KeyRingConfig.ConfigTextShowsOnlyVisible` | src/storage/security/mod.rs:193-201 | Two configs render identically iff they have the same path and the same presence pattern, whatever the secret values are. |
| `KeyRingConfig.EnclaveConfigTextNeverReturns` | src/storage/security/mod.rs:166-174 | As written, `Display for EnclaveConfig` never completes at any stack depth. By the time the stack runs out, it has written `EnclaveConfig (` once per nested call. |
| `KeyRingConfig.EnclaveConfigText` | src/storage/security/mod.rs:166-174 | The corrected rendering wraps the active variant in `EnclaveConfig (…)`, and it is `EnclaveConfig (YubiHsm)` exactly for the hardware variant. What it reveals is stated by `EnclaveConfigTextShowsOnlyVisible`. |
| `KeyRingConfig.EnclaveConfigTextShowsOnlyVisible` | src/storage/security/mod.rs:155-174 | The corrected rendering shows the variant, the path and the presence of each secret. Two configs render alike iff these agree. |

## Findings

| source | as written | input that shows it | evidently intended | confidence | as-written member | corrected member |
|---|---|---|---|---|---|---|
| src/storage/security/mod.rs:172 | `Display for EnclaveConfig` writes `EnclaveConfig (` and then formats the config itself with `{}`, so the call never returns and the stack overflows | any value, e.g. `EnclaveConfig::YubiHsm` | render the active variant inside `EnclaveConfig (…)`, using the redacted keyring rendering | high, not executed | `KeyRingConfig.EnclaveConfigTextNeverReturns` | `KeyRingConfig.EnclaveConfigTextShowsOnlyVisible` |

## Left out

- `KeyRingConfig.EnclaveConfigTextAsWritten`: the endless recursion is modelled with an explicit stack depth. A result that has not completed stands for the overflow.
- `DebugString.EscapeChar`: follows the escape table of Rust 1.61 and later, which writes NUL as `\0`. Earlier toolchains wrote it as `\u{0}`. It escapes `\0`, tab, CR, LF, backslash, double quote, and the C0 and C1 control characters (as `\u{..}`). Rust also writes `\u{..}` for other non-printable and grapheme-extending characters. Its Unicode tables are not modelled.
- `KeyRingConfig.OptionText`: the path is rendered with the string debug quoting. The platform's `OsStr` debug rendering differs for single quotes and invalid UTF-8. That rendering is platform-specific and is not modelled.
- `EnclaveErrors.Chain`: the `failure` crate is not part of this model. The two-entry chain (the kind's text, then the construction message) is what `Context::new(msg).context(kind)` is taken to produce. Backtraces and the `cause`/`backtrace` delegation (src/storage/security/mod.rs:102-110) are left out.
- `EnclaveErrors.WriteChain`: writing to the formatter is taken to succeed. The `?` error path of `writeln!` is not modelled.
- `EnclaveErrors.FromMsg`: the message is given by its display text. The generic `D: Display + Debug` parameter is not modelled.
- The generic parameters `A: AsRef<Path>` and `B: Into<String>` are modelled as `string`.
- The status code is an unbounded `int`. Every 32-bit `OSStatus` is one of them.
- The macOS backend module (src/storage/security/mod.rs:331-332) is not part of this model. Neither is the Security framework, whose error text is a parameter.
- `EnclaveLike` (`connect`, `close`) is not modelled. It has no implementation in this file.
- The `Zeroize` derive is not modelled. Its behaviour lives in an external crate, and no `Drop` impl calls it.
- The derived `Debug`, `Clone` and `PartialEq` impls are not modelled beyond Dafny's value equality. The derived `Debug` of `OsKeyRingConfig` prints the secrets unmasked.
- `KeyCatalog` holds descriptors only. They have no behaviour and no equality in the source. The cryptography they name (AES-CCM, GCM, GCM-SIV, ChaCha, RSA, ECC, HMAC) is never executed.
