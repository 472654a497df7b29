/**
 * The tunnel form schema of src/lib/actions.ts (`tunnelSchemaBase` refined by `tunnelSchema`): a
 * field-by-field validator of the raw form that yields either the validated data or, for every field
 * with problems, the list of its issues.
 */
module TunnelValidation {
  import opened Wrappers
  import opened TunnelTypes
  import opened Text

  /** The form fields, the keys of the field-error map. */
  datatype Field = Name | Type | LocalIp | RemoteIp | AssignedIp | Mtu | InterfaceName

  const AllFields: set<Field> := {Name, Type, LocalIp, RemoteIp, AssignedIp, Mtu, InterfaceName}

  /**
   * One validation issue: the schema's own messages verbatim, and the issues the validation library
   * words itself (a missing string, an unknown enum value, a non-number, a violated bound).
   */
  datatype Issue =
    | Message(text: string)
    | Required
    | InvalidEnumValue
    | NotANumber
    | TooSmall(minimum: int)
    | TooBig(maximum: int)

  /** The submitted form: each entry is absent or a string. */
  datatype RawForm = RawForm(
    name: Option<string>,
    tunnelType: Option<string>,
    localIp: Option<string>,
    remoteIp: Option<string>,
    assignedIp: Option<string>,
    mtu: Option<string>,
    interfaceName: Option<string>)

  /** The library's IPv4 and IPv6 address recognisers, which this model takes as given. */
  datatype AddressRecognizers = AddressRecognizers(isV4: string -> bool, isV6: string -> bool)

  // ----- name: at least three UTF-16 code units -----

  /** A JavaScript string's `length`: characters outside the Basic Multilingual Plane count twice. */
  function Utf16Length(s: string): (n: nat)
    ensures |s| <= n <= 2 * |s|
  {
    if |s| == 0 then 0
    else (if s[0] as int > 0xFFFF then 2 else 1) + Utf16Length(s[1..])
  }

  /** One character is one code unit, or two (a surrogate pair) outside the Basic Multilingual Plane. */
  lemma Utf16LengthChar(c: char)
    ensures Utf16Length([c]) == if c as int > 0xFFFF then 2 else 1
  {
    assert [c][1..] == [];
  }

  /** The length of a concatenation is the sum of the lengths. */
  lemma {:induction false} Utf16LengthConcat(a: string, b: string)
    ensures Utf16Length(a + b) == Utf16Length(a) + Utf16Length(b)
  {
    if |a| > 0 {
      assert (a + b)[1..] == a[1..] + b;
      Utf16LengthConcat(a[1..], b);
    } else {
      assert a + b == b;
    }
  }

  // ----- type -----

  function ParseTunnelType(s: string): (t: Option<TunnelType>)
    ensures t.Some? ==> t.value != LegacyIpv6
  {
    if s == "6to4" then Some(SixToFour)
    else if s == "ipip6" then Some(Ipip6)
    else if s == "gre6" then Some(Gre6)
    else None
  }

  // ----- interfaceName: /^[a-zA-Z0-9_-]+$/ -----

  predicate IsInterfaceNameChar(c: char) {
    ('a' <= c <= 'z') || ('A' <= c <= 'Z') || IsDigit(c) || c == '_' || c == '-'
  }

  predicate IsInterfaceName(s: string) {
    |s| >= 1 && forall k :: 0 <= k < |s| ==> IsInterfaceNameChar(s[k])
  }

  // ----- assignedIp: ipWithCidrRegex -----

  /** `[0-9]{1,3}` */
  predicate IsOctetText(g: string) {
    1 <= |g| <= 3 && AllDigits(g)
  }

  /** `[0-9a-fA-F:]` */
  predicate IsHexOrColon(c: char) {
    IsDigit(c) || ('a' <= c <= 'f') || ('A' <= c <= 'F') || c == ':'
  }

  /** `[0-9a-fA-F:]+` */
  predicate IsHexColonText(a: string) {
    |a| >= 1 && forall k :: 0 <= k < |a| ==> IsHexOrColon(a[k])
  }

  /** `(0|[1-9]|[12][0-9]|3[0-2])` */
  predicate IsPrefixUpTo32(p: string) {
    || p == "0"
    || (|p| == 1 && '1' <= p[0] <= '9')
    || (|p| == 2 && (p[0] == '1' || p[0] == '2') && IsDigit(p[1]))
    || (|p| == 2 && p[0] == '3' && '0' <= p[1] <= '2')
  }

  /** `(0|[1-9]|[1-9][0-9]|1[01][0-9]|12[0-8])` */
  predicate IsPrefixUpTo128(p: string) {
    || p == "0"
    || (|p| == 1 && '1' <= p[0] <= '9')
    || (|p| == 2 && '1' <= p[0] <= '9' && IsDigit(p[1]))
    || (|p| == 3 && p[0] == '1' && (p[1] == '0' || p[1] == '1') && IsDigit(p[2]))
    || (|p| == 3 && p[0] == '1' && p[1] == '2' && '0' <= p[2] <= '8')
  }

  /** `^([0-9]{1,3}\.){3}[0-9]{1,3}\/(0|[1-9]|[12][0-9]|3[0-2])$` */
  predicate MatchesV4Cidr(s: string) {
    var parts := Split(s, '/');
    var groups := Split(parts[0], '.');
    && |parts| == 2
    && |groups| == 4
    && (forall k :: 0 <= k < 4 ==> IsOctetText(groups[k]))
    && IsPrefixUpTo32(parts[1])
  }

  /** `^([0-9a-fA-F:]+)\/(0|[1-9]|[1-9][0-9]|1[01][0-9]|12[0-8])$` */
  predicate MatchesV6Cidr(s: string) {
    var parts := Split(s, '/');
    |parts| == 2 && IsHexColonText(parts[0]) && IsPrefixUpTo128(parts[1])
  }

  /** `ipWithCidrRegex.test(s)`: the pattern accepts exactly the two documented forms. */
  predicate MatchesIpWithCidr(s: string): (b: bool)
    ensures b <==> IsV4CidrText(s) || IsV6CidrText(s)
  {
    IpWithCidrForms(s);
    MatchesV4Cidr(s) || MatchesV6Cidr(s)
  }

  // ----- assignedIp: the two accepted forms, stated independently of the matcher -----

  /** Four dot-separated groups of one to three digits and a prefix length. */
  datatype V4Cidr = V4Cidr(groups: seq<string>, prefixLength: nat)

  /** A non-empty run of hexadecimal digits and colons and a prefix length. */
  datatype V6Cidr = V6Cidr(address: string, prefixLength: nat)

  ghost predicate WellFormedV4(c: V4Cidr) {
    |c.groups| == 4 && (forall k :: 0 <= k < 4 ==> IsOctetText(c.groups[k])) && c.prefixLength <= 32
  }

  ghost predicate WellFormedV6(c: V6Cidr) {
    IsHexColonText(c.address) && c.prefixLength <= 128
  }

  function RenderV4(c: V4Cidr): string
    requires |c.groups| >= 1
  {
    Join(c.groups, '.') + "/" + DecimalString(c.prefixLength)
  }

  function RenderV6(c: V6Cidr): string {
    c.address + "/" + DecimalString(c.prefixLength)
  }

  ghost predicate IsV4CidrText(s: string) {
    exists c :: WellFormedV4(c) && RenderV4(c) == s
  }

  ghost predicate IsV6CidrText(s: string) {
    exists c :: WellFormedV6(c) && RenderV6(c) == s
  }

  /** The 0..32 alternation accepts exactly the numerals of 0 to 32. */
  lemma PrefixUpTo32Numerals(p: string)
    ensures IsPrefixUpTo32(p) <==> exists n: nat :: n <= 32 && DecimalString(n) == p
  {
    if IsPrefixUpTo32(p) {
      CanonicalDigits(p);
      DigitsValueShort(p);
      assert DigitsValue(p) <= 32;
    }
    if exists n: nat :: n <= 32 && DecimalString(n) == p {
      var n: nat :| n <= 32 && DecimalString(n) == p;
      if n >= 10 {
        assert DecimalString(n / 10) == [DigitChar(n / 10)];
        assert p == [DigitChar(n / 10), DigitChar(n % 10)];
      }
    }
  }

  /** Every text the 0..128 alternation accepts is the numeral of a number up to 128. */
  lemma PrefixUpTo128Sound(p: string)
    requires IsPrefixUpTo128(p)
    ensures DigitsValue(p) <= 128 && DecimalString(DigitsValue(p)) == p
  {
    CanonicalDigits(p);
    DigitsValueShort(p);
  }

  /** The numeral of every number up to 128 is accepted by the 0..128 alternation. */
  lemma PrefixUpTo128Complete(n: nat)
    requires n <= 128
    ensures IsPrefixUpTo128(DecimalString(n))
  {
    var p := DecimalString(n);
    if 10 <= n < 100 {
      assert DecimalString(n / 10) == [DigitChar(n / 10)];
      assert p == [DigitChar(n / 10), DigitChar(n % 10)];
    } else if n >= 100 {
      assert DecimalString(n / 100) == [DigitChar(n / 100)];
      assert DecimalString(n / 10) == [DigitChar(n / 100), DigitChar((n / 10) % 10)];
      assert p == [DigitChar(n / 100), DigitChar((n / 10) % 10), DigitChar(n % 10)];
    }
  }

  /** The 0..128 alternation accepts exactly the numerals of 0 to 128. */
  lemma PrefixUpTo128Numerals(p: string)
    ensures IsPrefixUpTo128(p) <==> exists n: nat :: n <= 128 && DecimalString(n) == p
  {
    if IsPrefixUpTo128(p) {
      PrefixUpTo128Sound(p);
    }
    if exists n: nat :: n <= 128 && DecimalString(n) == p {
      var n: nat :| n <= 128 && DecimalString(n) == p;
      PrefixUpTo128Complete(n);
    }
  }

  /** Text matching the IPv4 half of the pattern is four digit groups and a prefix length up to 32. */
  lemma V4CidrSound(s: string)
    requires MatchesV4Cidr(s)
    ensures IsV4CidrText(s)
  {
    var parts := Split(s, '/');
    var groups := Split(parts[0], '.');
    PrefixUpTo32Numerals(parts[1]);
    var n: nat :| n <= 32 && DecimalString(n) == parts[1];
    var c := V4Cidr(groups, n);
    JoinSplit(parts[0], '.');
    JoinSplit(s, '/');
    assert Join(parts, '/') == parts[0] + "/" + parts[1];
    assert WellFormedV4(c) && RenderV4(c) == s;
  }

  /** Four digit groups and a prefix length up to 32 match the IPv4 half of the pattern. */
  lemma V4CidrComplete(c: V4Cidr)
    requires WellFormedV4(c)
    ensures MatchesV4Cidr(RenderV4(c))
  {
    var a := Join(c.groups, '.');
    var d := DecimalString(c.prefixLength);
    forall k | 0 <= k < |c.groups| ensures '/' !in c.groups[k] && '.' !in c.groups[k] {
      assert IsOctetText(c.groups[k]);
    }
    NotInJoin(c.groups, '.', '/');
    assert '/' !in d;
    SplitJoin([a, d], '/');
    assert Join([a, d], '/') == RenderV4(c);
    SplitJoin(c.groups, '.');
    PrefixUpTo32Numerals(d);
    assert c.prefixLength <= 32 && DecimalString(c.prefixLength) == d;
  }

  /** Text matching the IPv6 half of the pattern is a hexadecimal-and-colon run and a prefix length up to 128. */
  lemma V6CidrSound(s: string)
    requires MatchesV6Cidr(s)
    ensures IsV6CidrText(s)
  {
    var parts := Split(s, '/');
    PrefixUpTo128Sound(parts[1]);
    var c := V6Cidr(parts[0], DigitsValue(parts[1]));
    JoinSplit(s, '/');
    assert Join(parts, '/') == parts[0] + "/" + parts[1];
    assert WellFormedV6(c) && RenderV6(c) == s;
  }

  /** A hexadecimal-and-colon run and a prefix length up to 128 match the IPv6 half of the pattern. */
  lemma V6CidrComplete(c: V6Cidr)
    requires WellFormedV6(c)
    ensures MatchesV6Cidr(RenderV6(c))
  {
    var d := DecimalString(c.prefixLength);
    assert '/' !in c.address by {
      forall k | 0 <= k < |c.address| ensures c.address[k] != '/' {
        assert IsHexOrColon(c.address[k]);
      }
    }
    assert '/' !in d;
    SplitJoin([c.address, d], '/');
    assert Join([c.address, d], '/') == RenderV6(c);
    PrefixUpTo128Complete(c.prefixLength);
  }

  /** Either alternative of `ipWithCidrRegex` matches exactly when the text has one of the two forms. */
  lemma IpWithCidrForms(s: string)
    ensures MatchesV4Cidr(s) || MatchesV6Cidr(s) <==> IsV4CidrText(s) || IsV6CidrText(s)
  {
    if MatchesV4Cidr(s) { V4CidrSound(s); }
    if MatchesV6Cidr(s) { V6CidrSound(s); }
    if IsV4CidrText(s) {
      var c :| WellFormedV4(c) && RenderV4(c) == s;
      V4CidrComplete(c);
    }
    if IsV6CidrText(s) {
      var c :| WellFormedV6(c) && RenderV6(c) == s;
      V6CidrComplete(c);
    }
  }

  // ----- mtu: parseInt(String(val), 10) -----

  /** The characters `parseInt` skips before a number: JavaScript white space and line terminators. */
  predicate IsJsWhitespace(c: char) {
    var x := c as int;
    x == 0x09 || x == 0x0A || x == 0x0B || x == 0x0C || x == 0x0D || x == 0x20 || x == 0xA0
    || x == 0x1680 || (0x2000 <= x <= 0x200A) || x == 0x2028 || x == 0x2029 || x == 0x202F
    || x == 0x205F || x == 0x3000 || x == 0xFEFF
  }

  /** `s` without its leading white space. */
  function TrimStart(s: string): (r: string)
    ensures |r| <= |s|
    ensures |r| > 0 ==> !IsJsWhitespace(r[0])
  {
    if |s| > 0 && IsJsWhitespace(s[0]) then TrimStart(s[1..]) else s
  }

  /** `TrimStart` drops exactly the run of white space at the start of `s`, all of it, and nothing else. */
  lemma {:induction false} TrimStartDropsWhitespace(s: string)
    ensures var r := TrimStart(s);
            && r == s[|s| - |r|..]
            && (forall k :: 0 <= k < |s| - |r| ==> IsJsWhitespace(s[k]))
            && (|r| > 0 ==> !IsJsWhitespace(r[0]))
  {
    if |s| > 0 && IsJsWhitespace(s[0]) {
      TrimStartDropsWhitespace(s[1..]);
      var r := TrimStart(s);
      assert s[1..][|s| - 1 - |r|..] == s[|s| - |r|..];
      forall k | 0 <= k < |s| - |r| ensures IsJsWhitespace(s[k]) {
        if k > 0 { assert s[k] == s[1..][k - 1]; }
      }
    }
  }

  /** The longest run of digits at the start of `s`. */
  function LeadingDigits(s: string): (r: string)
    ensures AllDigits(r) && r <= s
    ensures |r| < |s| ==> !IsDigit(s[|r|])
  {
    if |s| > 0 && IsDigit(s[0]) then [s[0]] + LeadingDigits(s[1..]) else ""
  }

  /** `parseInt(s, 10)`: optional white space and sign, then the leading digits; `None` is NaN. */
  function ParseDecimalInt(s: string): (r: Option<int>)
    ensures r.Some? ==> exists k :: 0 <= k < |s| && IsDigit(s[k])
    ensures r.Some? && r.value < 0 ==> '-' in s
  {
    TrimStartDropsWhitespace(s);
    ParseSigned(TrimStart(s))
  }

  /** An optional sign, then the leading digits. */
  function ParseSigned(t: string): (r: Option<int>)
    ensures r.Some? ==> exists k :: 0 <= k < |t| && IsDigit(t[k])
    ensures r.Some? && r.value < 0 ==> |t| > 0 && t[0] == '-'
  {
    var negative := |t| > 0 && t[0] == '-';
    var body := if |t| > 0 && (t[0] == '-' || t[0] == '+') then t[1..] else t;
    var digits := LeadingDigits(body);
    var magnitude: int := DigitsValue(digits);
    if digits == "" then None
    else if negative then Some(-magnitude)
    else Some(magnitude)
  }

  lemma {:induction false} TrimStartWhitespace(ws: string, rest: string)
    requires forall k :: 0 <= k < |ws| ==> IsJsWhitespace(ws[k])
    requires |rest| > 0 && !IsJsWhitespace(rest[0])
    ensures TrimStart(ws + rest) == rest
  {
    if |ws| > 0 {
      assert (ws + rest)[1..] == ws[1..] + rest;
      TrimStartWhitespace(ws[1..], rest);
    }
  }

  lemma {:induction false} LeadingDigitsOf(digits: string, rest: string)
    requires AllDigits(digits)
    requires rest == "" || !IsDigit(rest[0])
    ensures LeadingDigits(digits + rest) == digits
  {
    if |digits| > 0 {
      assert (digits + rest)[1..] == digits[1..] + rest;
      LeadingDigitsOf(digits[1..], rest);
    } else {
      assert digits + rest == rest;
    }
  }

  /** `parseInt` skips white space before the number. */
  lemma ParseDecimalIntSkipsWhitespace(ws: string, t: string)
    requires forall k :: 0 <= k < |ws| ==> IsJsWhitespace(ws[k])
    requires |t| > 0 && !IsJsWhitespace(t[0])
    ensures ParseDecimalInt(ws + t) == ParseDecimalInt(t)
  {
    TrimStartWhitespace(ws, t);
    assert TrimStart(t) == t;
  }

  /** `parseInt` reads a numeral and ignores whatever follows its digits. */
  lemma ParseDecimalIntReadsNumeral(n: nat, rest: string)
    requires rest == "" || !IsDigit(rest[0])
    ensures ParseDecimalInt(DecimalString(n) + rest) == Some(n)
  {
    var d := DecimalString(n);
    var t := d + rest;
    assert t[0] == d[0];
    assert TrimStart(t) == t;
    LeadingDigitsOf(d, rest);
    DecimalRoundTrip(n);
  }

  /** `parseInt` reads a minus sign followed by a numeral as a negative number. */
  lemma ParseDecimalIntReadsNegative(n: nat, rest: string)
    requires rest == "" || !IsDigit(rest[0])
    ensures ParseDecimalInt("-" + DecimalString(n) + rest) == Some(-(n as int))
  {
    var d := DecimalString(n);
    var t := "-" + d + rest;
    assert t[0] == '-';
    assert TrimStart(t) == t;
    assert t[1..] == d + rest;
    LeadingDigitsOf(d, rest);
    assert LeadingDigits(t[1..]) == d;
    DecimalRoundTrip(n);
    assert ParseSigned(t) == Some(-(n as int));
  }

  /** The MTU after preprocessing: no MTU for a missing or empty entry, otherwise `parseInt`'s result. */
  function MtuValue(v: Option<string>): Option<int> {
    if v.None? || v.value == "" then None else ParseDecimalInt(v.value)
  }

  /** Whether the MTU entry produced NaN, which stops the schema before its refinement runs. */
  predicate MtuIsNaN(v: Option<string>) {
    v.Some? && v.value != "" && ParseDecimalInt(v.value).None?
  }

  function MtuIssues(v: Option<string>): (issues: seq<Issue>)
    ensures |issues| <= 1
    ensures issues == [] <==> MtuAcceptable(v)
  {
    if v.None? || v.value == "" then []
    else
      match ParseDecimalInt(v.value)
      case None => [NotANumber]
      case Some(n) =>
        (if n < 68 then [TooSmall(68)] else []) + (if n > 65535 then [TooBig(65535)] else [])
  }

  /** An MTU entry is accepted when absent or empty, or when it reads as a number from 68 to 65535. */
  ghost predicate MtuAcceptable(v: Option<string>) {
    v.None? || v.value == "" || exists n :: ParseDecimalInt(v.value) == Some(n) && 68 <= n <= 65535
  }

  /** A numeral is accepted exactly when it is in range, even with text after it. */
  lemma MtuNumeral(n: nat, rest: string)
    requires rest == "" || !IsDigit(rest[0])
    ensures MtuIssues(Some(DecimalString(n) + rest)) == [] <==> 68 <= n <= 65535
    ensures 68 <= n <= 65535 ==> MtuValue(Some(DecimalString(n) + rest)) == Some(n)
  {
    ParseDecimalIntReadsNumeral(n, rest);
  }

  // ----- the schema, field by field -----

  const NameTooShort := "Name must be at least 3 characters long."
  const TypeRequired := "Tunnel type is required."
  const LocalIpRequired := "Local IP is required."
  const RemoteIpRequired := "Remote IP is required."
  const AssignedIpMalformed := "Invalid Assigned IP/CIDR format (e.g., 10.0.0.1/24 or fd00::1/64)."
  const InterfaceNameRequired := "Interface name is required."
  const InterfaceNameCharset := "Interface name can only contain letters, numbers, underscore, and hyphen."
  const LocalIpNotV4 := "Local IP must be a valid IPv4 address for 6to4 tunnels."
  const RemoteIpNotV4 := "Remote IP must be a valid IPv4 address for 6to4 tunnels."
  const LocalIpNotV6 := "Local IP must be a valid IPv6 address for ipip6/gre6 tunnels."
  const RemoteIpNotV6 := "Remote IP must be a valid IPv6 address for ipip6/gre6 tunnels."

  /** A string field with a minimum length and a message for it. */
  function MinLengthIssues(v: Option<string>, minimum: nat, message: string): seq<Issue> {
    match v
    case None => [Required]
    case Some(s) => if Utf16Length(s) < minimum then [Message(message)] else []
  }

  function TypeIssues(v: Option<string>): seq<Issue> {
    match v
    case None => [Message(TypeRequired)]
    case Some(s) => if ParseTunnelType(s).None? then [InvalidEnumValue] else []
  }

  function AssignedIpIssues(v: Option<string>): seq<Issue> {
    match v
    case None => [Required]
    case Some(s) => if MatchesIpWithCidr(s) then [] else [Message(AssignedIpMalformed)]
  }

  function InterfaceNameIssues(v: Option<string>): seq<Issue> {
    match v
    case None => [Required]
    case Some(s) =>
      (if Utf16Length(s) < 1 then [Message(InterfaceNameRequired)] else [])
      + (if IsInterfaceName(s) then [] else [Message(InterfaceNameCharset)])
  }

  /** The issues of `tunnelSchemaBase`, before the refinement. */
  function BaseIssues(form: RawForm, f: Field): seq<Issue> {
    match f
    case Name => MinLengthIssues(form.name, 3, NameTooShort)
    case Type => TypeIssues(form.tunnelType)
    case LocalIp => MinLengthIssues(form.localIp, 1, LocalIpRequired)
    case RemoteIp => MinLengthIssues(form.remoteIp, 1, RemoteIpRequired)
    case AssignedIp => AssignedIpIssues(form.assignedIp)
    case Mtu => MtuIssues(form.mtu)
    case InterfaceName => InterfaceNameIssues(form.interfaceName)
  }

  /**
   * Whether the base schema fails hard (a missing string, an unknown type, an MTU that is NaN); then
   * the refinement does not run.
   */
  predicate Aborted(form: RawForm): (b: bool)
    ensures b ==> exists f :: f in AllFields && BaseIssues(form, f) != []
  {
    || form.name.None? || form.tunnelType.None? || ParseTunnelType(form.tunnelType.value).None?
    || form.localIp.None? || form.remoteIp.None? || form.assignedIp.None?
    || form.interfaceName.None? || MtuIsNaN(form.mtu)
  }

  /** The endpoint issue of one address: 6to4 wants IPv4, ipip6 and gre6 want IPv6. */
  function EndpointIssues(t: TunnelType, address: string, rec: AddressRecognizers, notV4: string, notV6: string): seq<Issue> {
    if t == SixToFour then (if rec.isV4(address) then [] else [Message(notV4)])
    else if t == Ipip6 || t == Gre6 then (if rec.isV6(address) then [] else [Message(notV6)])
    else []
  }

  /** The issues the refinement adds to a field. */
  function RefinementIssues(form: RawForm, rec: AddressRecognizers, f: Field): seq<Issue> {
    if Aborted(form) then []
    else
      var t := ParseTunnelType(form.tunnelType.value).value;
      match f
      case LocalIp => EndpointIssues(t, form.localIp.value, rec, LocalIpNotV4, LocalIpNotV6)
      case RemoteIp => EndpointIssues(t, form.remoteIp.value, rec, RemoteIpNotV4, RemoteIpNotV6)
      case _ => []
  }

  function FieldIssues(form: RawForm, rec: AddressRecognizers, f: Field): seq<Issue> {
    BaseIssues(form, f) + RefinementIssues(form, rec, f)
  }

  /** The field-error map: every field with at least one issue, mapped to its issues. */
  function FieldErrors(form: RawForm, rec: AddressRecognizers): (errors: map<Field, seq<Issue>>)
    ensures forall f :: f in errors <==> FieldIssues(form, rec, f) != []
    ensures forall f :: f in errors ==> errors[f] == FieldIssues(form, rec, f)
  {
    map f | f in AllFields && FieldIssues(form, rec, f) != [] :: FieldIssues(form, rec, f)
  }

  /** A hard failure always leaves an issue on some field. */
  lemma AbortedReported(form: RawForm, rec: AddressRecognizers)
    requires Aborted(form)
    ensures FieldErrors(form, rec) != map[]
  {
    var errors := FieldErrors(form, rec);
    if form.name.None? { assert Name in errors; }
    else if form.tunnelType.None? || ParseTunnelType(form.tunnelType.value).None? { assert Type in errors; }
    else if form.localIp.None? { assert LocalIp in errors; }
    else if form.remoteIp.None? { assert RemoteIp in errors; }
    else if form.assignedIp.None? { assert AssignedIp in errors; }
    else if form.interfaceName.None? { assert InterfaceName in errors; }
    else { assert Mtu in errors; }
  }

  datatype Validation = Valid(data: TunnelCreationData) | Invalid(errors: map<Field, seq<Issue>>)

  /** `tunnelSchema.safeParse`: the validated data, or the field-error map of a failed parse. */
  function Validate(form: RawForm, rec: AddressRecognizers): (r: Validation)
    ensures r.Valid? <==> FieldErrors(form, rec) == map[]
    ensures r.Invalid? ==> r.errors == FieldErrors(form, rec)
    ensures r.Valid? ==> && Some(r.data.name) == form.name
                         && Some(r.data.localIp) == form.localIp
                         && Some(r.data.remoteIp) == form.remoteIp
                         && Some(r.data.assignedIp) == form.assignedIp
                         && Some(r.data.interfaceName) == form.interfaceName
                         && form.tunnelType.Some? && Some(r.data.tunnelType) == ParseTunnelType(form.tunnelType.value)
                         && r.data.mtu == MtuValue(form.mtu)
  {
    var errors := FieldErrors(form, rec);
    if errors != map[] then Invalid(errors)
    else if Aborted(form) then (AbortedReported(form, rec); assert false; Invalid(errors))
    else
      Valid(TunnelCreationData(form.name.value, ParseTunnelType(form.tunnelType.value).value,
                               form.localIp.value, form.remoteIp.value, form.assignedIp.value,
                               MtuValue(form.mtu), form.interfaceName.value))
  }

  // ----- what the schema accepts, stated field by field -----

  /** 6to4 wants both endpoints IPv4; ipip6 and gre6 want both IPv6. */
  ghost predicate EndpointsMatchFamily(t: string, localIp: string, remoteIp: string, rec: AddressRecognizers) {
    && (t == "6to4" ==> rec.isV4(localIp) && rec.isV4(remoteIp))
    && (t == "ipip6" || t == "gre6" ==> rec.isV6(localIp) && rec.isV6(remoteIp))
  }

  /** The forms the schema accepts. */
  ghost predicate Acceptable(form: RawForm, rec: AddressRecognizers) {
    && form.name.Some? && Utf16Length(form.name.value) >= 3
    && form.tunnelType.Some? && form.tunnelType.value in {"6to4", "ipip6", "gre6"}
    && form.localIp.Some? && form.localIp.value != ""
    && form.remoteIp.Some? && form.remoteIp.value != ""
    && form.assignedIp.Some? && (IsV4CidrText(form.assignedIp.value) || IsV6CidrText(form.assignedIp.value))
    && MtuAcceptable(form.mtu)
    && form.interfaceName.Some? && IsInterfaceName(form.interfaceName.value)
    && EndpointsMatchFamily(form.tunnelType.value, form.localIp.value, form.remoteIp.value, rec)
  }

  /** A string has JavaScript length zero exactly when it is empty. */
  lemma Utf16LengthZero(s: string)
    ensures Utf16Length(s) < 1 <==> s == ""
  {
  }

  /** Both endpoints pass the refinement exactly when their address family fits the type. */
  lemma EndpointsPass(form: RawForm, rec: AddressRecognizers)
    requires !Aborted(form)
    ensures RefinementIssues(form, rec, LocalIp) == [] && RefinementIssues(form, rec, RemoteIp) == []
        <==> EndpointsMatchFamily(form.tunnelType.value, form.localIp.value, form.remoteIp.value, rec)
  {
  }

  /** The schema accepts a form exactly when every field meets its rule. */
  lemma ValidateAcceptsExactly(form: RawForm, rec: AddressRecognizers)
    ensures Validate(form, rec).Valid? <==> Acceptable(form, rec)
  {
    var errors := FieldErrors(form, rec);
    NameRule(form, rec);
    TypeRule(form, rec);
    LocalIpRule(form, rec);
    RemoteIpRule(form, rec);
    AssignedIpRule(form, rec);
    MtuRule(form, rec);
    InterfaceNameRule(form, rec);
    if errors == map[] {
      if Aborted(form) { AbortedReported(form, rec); }
      assert !Aborted(form);
      assert Name !in errors && Type !in errors && LocalIp !in errors && RemoteIp !in errors;
      assert AssignedIp !in errors && Mtu !in errors && InterfaceName !in errors;
      assert Acceptable(form, rec);
    }
    if Acceptable(form, rec) {
      assert !Aborted(form) by {
        assert form.mtu.Some? && form.mtu.value != "" ==> ParseDecimalInt(form.mtu.value).Some?;
      }
      assert forall f :: f !in errors by {
        forall f ensures f !in errors {
          match f
          case Name =>
          case Type =>
          case LocalIp =>
          case RemoteIp =>
          case AssignedIp =>
          case Mtu =>
          case InterfaceName =>
        }
      }
      assert errors == map[];
    }
  }

  /** `type` has an error exactly when it is missing or not one of the three kinds. */
  lemma TypeRule(form: RawForm, rec: AddressRecognizers)
    ensures Type in FieldErrors(form, rec)
        <==> form.tunnelType.None? || form.tunnelType.value !in {"6to4", "ipip6", "gre6"}
  {
  }

  /** `name` has an error exactly when it is missing or shorter than three. */
  lemma NameRule(form: RawForm, rec: AddressRecognizers)
    ensures Name in FieldErrors(form, rec) <==> form.name.None? || Utf16Length(form.name.value) < 3
  {
  }

  /** `interfaceName` has an error exactly when it is missing or not a non-empty run of [A-Za-z0-9_-]. */
  lemma InterfaceNameRule(form: RawForm, rec: AddressRecognizers)
    ensures InterfaceName in FieldErrors(form, rec)
        <==> form.interfaceName.None? || !IsInterfaceName(form.interfaceName.value)
  {
    if form.interfaceName.Some? { Utf16LengthZero(form.interfaceName.value); }
  }

  /** `mtu` has an error exactly when it is neither empty nor a number from 68 to 65535. */
  lemma MtuRule(form: RawForm, rec: AddressRecognizers)
    ensures Mtu in FieldErrors(form, rec) <==> !MtuAcceptable(form.mtu)
  {
  }

  /** `assignedIp` has an error exactly when it is missing or in neither accepted form. */
  lemma AssignedIpRule(form: RawForm, rec: AddressRecognizers)
    ensures AssignedIp in FieldErrors(form, rec)
        <==> form.assignedIp.None? || !(IsV4CidrText(form.assignedIp.value) || IsV6CidrText(form.assignedIp.value))
  {
    if form.assignedIp.Some? { IpWithCidrForms(form.assignedIp.value); }
  }

  /**
   * `localIp` has an error exactly when it is missing or empty, or when the refinement runs and the
   * address is not of the family the type wants.
   */
  lemma LocalIpRule(form: RawForm, rec: AddressRecognizers)
    ensures LocalIp in FieldErrors(form, rec)
        <==> || form.localIp.None? || form.localIp.value == ""
             || (!Aborted(form) && form.tunnelType.value == "6to4" && !rec.isV4(form.localIp.value))
             || (!Aborted(form) && form.tunnelType.value in {"ipip6", "gre6"} && !rec.isV6(form.localIp.value))
  {
    if form.localIp.Some? { Utf16LengthZero(form.localIp.value); }
  }

  /** `remoteIp` follows the same rule as `localIp`. */
  lemma RemoteIpRule(form: RawForm, rec: AddressRecognizers)
    ensures RemoteIp in FieldErrors(form, rec)
        <==> || form.remoteIp.None? || form.remoteIp.value == ""
             || (!Aborted(form) && form.tunnelType.value == "6to4" && !rec.isV4(form.remoteIp.value))
             || (!Aborted(form) && form.tunnelType.value in {"ipip6", "gre6"} && !rec.isV6(form.remoteIp.value))
  {
    if form.remoteIp.Some? { Utf16LengthZero(form.remoteIp.value); }
  }
}
