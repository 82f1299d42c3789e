/**
 * The environment configuration reader (src/config.ts): the six required
 * identity-provider settings and the optional measurement id are read from
 * the build environment; a required value that is missing, not a string or
 * only whitespace is reported, and the result is either the settings or one
 * error text naming every missing key in declaration order.
 *
 * The environment is a map input; a key it lacks is `undefined`.
 */
module Config {
  import opened Common

  /** An environment value: the build tool supplies strings and booleans. */
  datatype EnvValue = Text(s: string) | Flag(b: bool)

  type Env = map<string, EnvValue>

  const ApiKeyName: string := "VITE_FIREBASE_API_KEY"
  const AuthDomainName: string := "VITE_FIREBASE_AUTH_DOMAIN"
  const ProjectIdName: string := "VITE_FIREBASE_PROJECT_ID"
  const StorageBucketName: string := "VITE_FIREBASE_STORAGE_BUCKET"
  const MessagingSenderIdName: string := "VITE_FIREBASE_MESSAGING_SENDER_ID"
  const AppIdName: string := "VITE_FIREBASE_APP_ID"
  const MeasurementIdName: string := "VITE_FIREBASE_MEASUREMENT_ID"

  /** The required keys, in declaration order. */
  const RequiredKeys: seq<string> :=
    [ApiKeyName, AuthDomainName, ProjectIdName, StorageBucketName, MessagingSenderIdName, AppIdName]

  const MissingPrefix: string := "Missing env: "
  const MissingSuffix: string :=
    ". Set them in Netlify (Site settings \U{2192} Environment variables) or in a .env file."

  /** The characters ECMAScript's `String.prototype.trim` removes (WhiteSpace and LineTerminator). */
  predicate IsJsWhitespace(c: char) {
    || c == '\t' || c == '\n' || c == '\U{B}' || c == '\U{C}' || c == '\r' || c == ' '
    || c == '\U{A0}' || c == '\U{1680}' || ('\U{2000}' <= c <= '\U{200A}')
    || c == '\U{2028}' || c == '\U{2029}' || c == '\U{202F}' || c == '\U{205F}'
    || c == '\U{3000}' || c == '\U{FEFF}'
  }

  predicate AllWhitespace(s: string) {
    forall i :: 0 <= i < |s| ==> IsJsWhitespace(s[i])
  }

  function TrimStart(s: string): string {
    if s != [] && IsJsWhitespace(s[0]) then TrimStart(s[1..]) else s
  }

  function TrimEnd(s: string): string {
    if s != [] && IsJsWhitespace(s[|s| - 1]) then TrimEnd(s[..|s| - 1]) else s
  }

  /** `s.trim()`. */
  function Trim(s: string): string {
    TrimEnd(TrimStart(s))
  }

  lemma {:induction false} TrimStartEmpty(s: string)
    ensures TrimStart(s) == [] <==> AllWhitespace(s)
    ensures TrimStart(s) != [] ==> !IsJsWhitespace(TrimStart(s)[0])
  {
    if s != [] && IsJsWhitespace(s[0]) {
      TrimStartEmpty(s[1..]);
      assert AllWhitespace(s) <==> AllWhitespace(s[1..]) by {
        if AllWhitespace(s[1..]) {
          forall i | 0 <= i < |s| ensures IsJsWhitespace(s[i]) {
            if i > 0 { assert s[i] == s[1..][i - 1]; }
          }
        }
      }
    }
  }

  lemma {:induction false} TrimEndKeepsHead(s: string)
    requires s != [] && !IsJsWhitespace(s[0])
    ensures TrimEnd(s) != []
  {
    if IsJsWhitespace(s[|s| - 1]) {
      TrimEndKeepsHead(s[..|s| - 1]);
    }
  }

  /** `s.trim() === ''` holds exactly for strings of whitespace only. */
  lemma TrimEmptyIffBlank(s: string)
    ensures Trim(s) == [] <==> AllWhitespace(s)
  {
    TrimStartEmpty(s);
    if TrimStart(s) != [] {
      TrimEndKeepsHead(TrimStart(s));
    }
  }

  /** `requireString`: the value itself, untrimmed, unless it is absent, not a string, or blank. */
  function RequireString(env: Env, key: string): (r: Option<string>)
    ensures r.Some? <==> key in env && env[key].Text? && !AllWhitespace(env[key].s)
    ensures r.Some? ==> r.value == env[key].s
  {
    if key in env && env[key].Text? then
      var value := env[key].s;
      TrimEmptyIffBlank(value);
      if Trim(value) == [] then None else Some(value)
    else None
  }

  /** `a` occurs in `b` in order, not necessarily contiguously. */
  predicate IsSubsequence(a: seq<string>, b: seq<string>)
    decreases |b|
  {
    if a == [] then true
    else if b == [] then false
    else (a[0] == b[0] && IsSubsequence(a[1..], b[1..])) || IsSubsequence(a, b[1..])
  }

  /**
   * The `missing` list: the keys whose `requireString` is null, kept in the
   * order of `keys` (`[!v && 'KEY', ...].filter(Boolean)`).
   */
  function Missing(env: Env, keys: seq<string>): (m: seq<string>)
    ensures forall k :: k in m <==> k in keys && RequireString(env, k).None?
    ensures IsSubsequence(m, keys)
  {
    if keys == [] then []
    else
      var rest := Missing(env, keys[1..]);
      if RequireString(env, keys[0]).None? then
        assert ([keys[0]] + rest)[1..] == rest;
        [keys[0]] + rest
      else
        rest
  }

  /** `parts.join(sep)`. */
  function Join(parts: seq<string>, sep: string): string
  {
    if parts == [] then ""
    else if |parts| == 1 then parts[0]
    else parts[0] + sep + Join(parts[1..], sep)
  }

  /** `part` occurs in `text` starting at index `off`. */
  predicate OccursAt(text: string, part: string, off: nat) {
    off + |part| <= |text| && text[off..off + |part|] == part
  }

  /** The error text for a non-empty missing list. */
  function MissingError(missing: seq<string>): (msg: string)
    ensures |MissingPrefix| <= |msg| && msg[..|MissingPrefix|] == MissingPrefix
  {
    MissingPrefix + Join(missing, ", ") + MissingSuffix
  }

  /** The error text names every missing key after its prefix. */
  lemma MissingErrorNamesEach(missing: seq<string>, i: nat)
    requires i < |missing|
    ensures exists off: nat :: |MissingPrefix| <= off && OccursAt(MissingError(missing), missing[i], off)
  {
    var off := PartOffset(missing, ", ", i);
    OccursInError(missing, missing[i], off);
  }

  /** Where part `i` starts in the joined text. */
  function PartOffset(parts: seq<string>, sep: string, i: nat): (off: nat)
    requires i < |parts|
    ensures OccursAt(Join(parts, sep), parts[i], off)
  {
    if i == 0 then
      assert Join(parts, sep)[0..|parts[0]|] == parts[0];
      0
    else
      var off := PartOffset(parts[1..], sep, i - 1);
      var tail := Join(parts[1..], sep);
      var shift := |parts[0]| + |sep|;
      assert Join(parts, sep) == parts[0] + sep + tail;
      assert Join(parts, sep)[shift + off..shift + off + |parts[i]|] == tail[off..off + |parts[i]|];
      shift + off
  }

  /** The part after part `i` starts a separator's length after part `i` ends. */
  lemma {:induction false} NextPartOffset(parts: seq<string>, sep: string, i: nat)
    requires i + 1 < |parts|
    ensures PartOffset(parts, sep, i + 1) == PartOffset(parts, sep, i) + |parts[i]| + |sep|
  {
    if i > 0 {
      NextPartOffset(parts[1..], sep, i - 1);
    }
  }

  /** Each part but the last is followed directly by the separator, and the next part starts right after it. */
  lemma {:induction false} SeparatorFollowsPart(parts: seq<string>, sep: string, i: nat)
    requires i + 1 < |parts|
    ensures PartOffset(parts, sep, i + 1) == PartOffset(parts, sep, i) + |parts[i]| + |sep|
    ensures OccursAt(Join(parts, sep), sep, PartOffset(parts, sep, i) + |parts[i]|)
  {
    NextPartOffset(parts, sep, i);
    var tail := Join(parts[1..], sep);
    assert Join(parts, sep) == parts[0] + sep + tail;
    if i == 0 {
      assert Join(parts, sep)[|parts[0]|..|parts[0]| + |sep|] == sep;
    } else {
      SeparatorFollowsPart(parts[1..], sep, i - 1);
      OccursInMiddle(parts[0] + sep, tail, "", sep, PartOffset(parts[1..], sep, i - 1) + |parts[i]|);
      assert parts[0] + sep + tail + "" == Join(parts, sep);
    }
  }

  /** Parts appear in the joined text in list order, at least a separator's length apart. */
  lemma {:induction false} PartsInOrder(parts: seq<string>, sep: string, i: nat, j: nat)
    requires i < j < |parts|
    ensures PartOffset(parts, sep, i) + |parts[i]| + |sep| <= PartOffset(parts, sep, j)
  {
    if i > 0 {
      PartsInOrder(parts[1..], sep, i - 1, j - 1);
    }
  }

  /** A part found in the middle piece is found, shifted, in the whole text. */
  lemma OccursInMiddle(pre: string, mid: string, post: string, part: string, off: nat)
    requires OccursAt(mid, part, off)
    ensures OccursAt(pre + mid + post, part, |pre| + off)
  {
    assert (pre + mid + post)[|pre| + off..|pre| + off + |part|] == mid[off..off + |part|];
  }

  /** Text found in the joined list is found, after the prefix, in the error text. */
  lemma OccursInError(missing: seq<string>, part: string, off: nat)
    requires OccursAt(Join(missing, ", "), part, off)
    ensures OccursAt(MissingError(missing), part, |MissingPrefix| + off)
  {
    OccursInMiddle(MissingPrefix, Join(missing, ", "), MissingSuffix, part, off);
  }

  /** The error text names the missing keys in the order of the missing list, one after another. */
  lemma MissingErrorKeysInOrder(missing: seq<string>, i: nat, j: nat)
    requires i < j < |missing|
    ensures var msg := MissingError(missing);
            var offI := |MissingPrefix| + PartOffset(missing, ", ", i);
            var offJ := |MissingPrefix| + PartOffset(missing, ", ", j);
            && OccursAt(msg, missing[i], offI) && OccursAt(msg, missing[j], offJ)
            && offI + |missing[i]| < offJ
  {
    PartsInOrder(missing, ", ", i, j);
    OccursInError(missing, missing[i], PartOffset(missing, ", ", i));
    OccursInError(missing, missing[j], PartOffset(missing, ", ", j));
  }

  /** Neighbouring missing keys are separated in the error text by exactly `", "`. */
  lemma MissingErrorSeparator(missing: seq<string>, i: nat)
    requires i + 1 < |missing|
    ensures var offI := |MissingPrefix| + PartOffset(missing, ", ", i);
            && OccursAt(MissingError(missing), ", ", offI + |missing[i]|)
            && |MissingPrefix| + PartOffset(missing, ", ", i + 1) == offI + |missing[i]| + 2
  {
    SeparatorFollowsPart(missing, ", ", i);
    OccursInError(missing, ", ", PartOffset(missing, ", ", i) + |missing[i]|);
  }

  /** `x || undefined`: falsy values (`undefined`, `''`, `false`) become absent. */
  function Truthy(v: Option<EnvValue>): (r: Option<EnvValue>)
    ensures r.Some? <==> v.Some? && v.value != Text("") && v.value != Flag(false)
    ensures r.Some? ==> r == v
  {
    match v
    case None => None
    case Some(Text(s)) => if s == "" then None else v
    case Some(Flag(b)) => if b then v else None
  }

  function Lookup(env: Env, key: string): Option<EnvValue> {
    if key in env then Some(env[key]) else None
  }

  /** The settings under their environment names. */
  datatype FirebaseEnv = FirebaseEnv(
    apiKey: string, authDomain: string, projectId: string, storageBucket: string,
    messagingSenderId: string, appId: string, measurementId: Option<EnvValue>)

  /** `ConfigResult`: the settings, or an error text. */
  datatype ConfigResult = Loaded(firebase: FirebaseEnv) | Failed(error: string)

  /** The environment holds the non-blank string `v` under `key`. */
  predicate HasText(env: Env, key: string, v: string) {
    key in env && env[key] == Text(v) && !AllWhitespace(v)
  }

  /** The value of a required key that is not missing. */
  function Required(env: Env, key: string): (v: string)
    requires key in RequiredKeys && key !in Missing(env, RequiredKeys)
    ensures HasText(env, key, v)
  {
    RequireString(env, key).value
  }

  /** `readEnv`. */
  function ReadEnv(env: Env): (r: ConfigResult)
    ensures r.Failed? <==> Missing(env, RequiredKeys) != []
    ensures r.Failed? ==> r.error == MissingError(Missing(env, RequiredKeys))
    ensures r.Loaded? ==>
              && HasText(env, ApiKeyName, r.firebase.apiKey)
              && HasText(env, AuthDomainName, r.firebase.authDomain)
              && HasText(env, ProjectIdName, r.firebase.projectId)
              && HasText(env, StorageBucketName, r.firebase.storageBucket)
              && HasText(env, MessagingSenderIdName, r.firebase.messagingSenderId)
              && HasText(env, AppIdName, r.firebase.appId)
              && r.firebase.measurementId == Truthy(Lookup(env, MeasurementIdName))
  {
    var missing := Missing(env, RequiredKeys);
    if |missing| > 0 then Failed(MissingError(missing))
    else
      Loaded(FirebaseEnv(
        Required(env, ApiKeyName), Required(env, AuthDomainName), Required(env, ProjectIdName),
        Required(env, StorageBucketName), Required(env, MessagingSenderIdName), Required(env, AppIdName),
        Truthy(Lookup(env, MeasurementIdName))))
  }

  /** The exported `config.firebase`, under the provider's option names. */
  datatype FirebaseConfig = FirebaseConfig(
    apiKey: string, authDomain: string, projectId: string, storageBucket: string,
    messagingSenderId: string, appId: string, measurementId: Option<EnvValue>)

  /**
   * The exported `config`: null when `result.error` is truthy, the settings
   * otherwise (the non-null assertions rely on an error being non-empty).
   */
  function DeriveConfig(r: ConfigResult): (c: Option<FirebaseConfig>)
    requires r.Failed? ==> r.error != ""
    ensures c.Some? <==> r.Loaded?
    ensures c.Some? ==>
              c.value == FirebaseConfig(r.firebase.apiKey, r.firebase.authDomain, r.firebase.projectId,
                                        r.firebase.storageBucket, r.firebase.messagingSenderId,
                                        r.firebase.appId, r.firebase.measurementId)
  {
    if r.Failed? && r.error != "" then None
    else
      var f := r.firebase;
      Some(FirebaseConfig(f.apiKey, f.authDomain, f.projectId, f.storageBucket,
                          f.messagingSenderId, f.appId, f.measurementId))
  }

  /** The exported `configError`. */
  function ConfigError(r: ConfigResult): (e: Option<string>)
    ensures e.Some? <==> r.Failed?
    ensures e.Some? ==> e.value == r.error
  {
    if r.Failed? then Some(r.error) else None
  }

  /** For every environment: `config` is null exactly when `configError` is set. */
  lemma ConfigNullIffError(env: Env)
    ensures var r := ReadEnv(env);
            (r.Failed? ==> r.error != "") &&
            (DeriveConfig(r).None? <==> ConfigError(r).Some?)
  {
  }

  /** The error names every required key that is missing (the order is `MissingErrorKeysInOrder`). */
  lemma ErrorNamesMissingKeys(env: Env, key: string)
    requires ReadEnv(env).Failed?
    requires key in RequiredKeys && RequireString(env, key).None?
    ensures exists off: nat :: |MissingPrefix| <= off && OccursAt(ReadEnv(env).error, key, off)
  {
    var missing := Missing(env, RequiredKeys);
    assert key in missing;
    var i :| 0 <= i < |missing| && missing[i] == key;
    MissingErrorNamesEach(missing, i);
  }
}
