/** Python string helpers the source relies on. */
module PyStrings {

  /** The characters `str.strip()` removes. */
  predicate IsSpace(c: char) {
    var n := c as int;
    || 9 <= n <= 13 || 28 <= n <= 32 || n == 0x85 || n == 0xA0 || n == 0x1680
    || 0x2000 <= n <= 0x200A || n == 0x2028 || n == 0x2029 || n == 0x202F || n == 0x205F || n == 0x3000
  }

  function StripLeft(s: string): string {
    if s != [] && IsSpace(s[0]) then StripLeft(s[1..]) else s
  }

  function StripRight(s: string): string {
    if s != [] && IsSpace(s[|s| - 1]) then StripRight(s[..|s| - 1]) else s
  }

  function Strip(s: string): string { StripRight(StripLeft(s)) }

  /** Tab, line feed, vertical tab, form feed, carriage return, blank and no-break space are
      blanks; letters, digits and the separators of ids are not. */
  lemma Blanks()
    ensures forall c | c in "\t\n\U{0B}\U{0C}\r \U{A0}" :: IsSpace(c)
    ensures forall c: char | '!' <= c <= '~' :: !IsSpace(c)
  {
  }

  lemma NothingToStrip(s: string)
    requires s != [] && !IsSpace(s[0]) && !IsSpace(s[|s| - 1])
    ensures Strip(s) == s
  {
  }
}

/** Canonical entity ids: a kind prefix followed by the stripped raw value. */
module EntityIds {
  import opened GraphModel
  import opened PyStrings

  function Prefix(kind: EntityKind): string {
    match kind
    case Merchant => "merch_"
    case Account => "acc_"
    case Device => "dev_"
    case Ip => "ip_"
    case PaymentInstrument => "tok_"
    case Transaction => "txn_"
    case Order => "ord_"
  }

  function MakeEntityId(kind: EntityKind, raw: string): EntityId {
    if raw == "" then EntityId(Prefix(kind) + "unknown")
    else
      var cleaned := Strip(raw);
      EntityId(if Prefix(kind) <= cleaned then cleaned else Prefix(kind) + cleaned)
  }

  /** The canonical ids, kind by kind. */
  lemma CanonicalIds(raw: string)
    ensures var text := Strip(raw);
      && MakeEntityId(Merchant, raw).text == Canonical("merch_", raw, text)
      && MakeEntityId(Account, raw).text == Canonical("acc_", raw, text)
      && MakeEntityId(Device, raw).text == Canonical("dev_", raw, text)
      && MakeEntityId(Ip, raw).text == Canonical("ip_", raw, text)
      && MakeEntityId(PaymentInstrument, raw).text == Canonical("tok_", raw, text)
      && MakeEntityId(Transaction, raw).text == Canonical("txn_", raw, text)
      && MakeEntityId(Order, raw).text == Canonical("ord_", raw, text)
  {
  }

  /** Stripped text keeps a prefix it has and gets one it lacks; no text at all is unknown. */
  function Canonical(prefix: string, raw: string, text: string): string {
    if raw == "" then prefix + "unknown" else if prefix <= text then text else prefix + text
  }

  lemma IdCarriesPrefix(kind: EntityKind, raw: string)
    ensures Prefix(kind) <= MakeEntityId(kind, raw).text
  {
  }

  /** The prefixes differ within their first two letters, so an id determines its kind. */
  lemma PrefixesDiffer(k: EntityKind, l: EntityKind, text: string)
    requires Prefix(k) <= text && Prefix(l) <= text
    ensures k == l
  {
    assert text[0] == Prefix(k)[0] == Prefix(l)[0];
    assert text[1] == Prefix(k)[1] == Prefix(l)[1];
  }

  /** No two kinds ever produce the same id, whatever the raw values. */
  lemma IdDeterminesKind(k: EntityKind, a: string, l: EntityKind, b: string)
    requires MakeEntityId(k, a) == MakeEntityId(l, b)
    ensures k == l
  {
    IdCarriesPrefix(k, a);
    IdCarriesPrefix(l, b);
    PrefixesDiffer(k, l, MakeEntityId(k, a).text);
  }
}
