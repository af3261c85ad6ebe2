/**
 * The account opening request page: from the submitted form fields it builds
 * an ISO 20022 `acmt.007.001.05` (AccountOpeningRequestV05) element tree.
 * Elements are appended to their parent's child sequence in the order the
 * page creates them; every element is in the acmt.007.001.05 namespace.
 */
module AccountOpening {
  import opened Common

  const Ns: string := "urn:iso:std:iso:20022:tech:xsd:acmt.007.001.05"

  /** An element: its qualified name (namespace and local name), its text, its children in order. */
  datatype Element = Element(ns: string, local: string, text: Option<string>, children: seq<Element>)

  function Node(local: string, children: seq<Element>): Element {
    Element(Ns, local, None, children)
  }

  function Leaf(local: string, text: string): Element {
    Element(Ns, local, Some(text), [])
  }

  /** A leaf that is created only when its field is non-empty (`if field: SubElement(...)`). */
  function Opt(local: string, value: string): (r: seq<Element>)
    ensures |r| == (if value == "" then 0 else 1)
    ensures value != "" ==> r[0] == Leaf(local, value)
  {
    if value == "" then [] else [Leaf(local, value)]
  }

  function Names(es: seq<Element>): (r: seq<string>)
    ensures |r| == |es|
    ensures forall i :: 0 <= i < |es| ==> r[i] == es[i].local
  {
    if es == [] then [] else [es[0].local] + Names(es[1..])
  }

  /** Every element of the tree is in namespace `Ns`. */
  predicate InNamespace(e: Element)
    decreases e, 1
  {
    e.ns == Ns && AllInNamespace(e.children)
  }

  /** Every element of the sequence, and of its subtrees, is in namespace `Ns`. */
  predicate AllInNamespace(es: seq<Element>)
    decreases es, 0
  {
    es == [] || (InNamespace(es[0]) && AllInNamespace(es[1..]))
  }

  lemma {:induction false} AllInNamespaceConcat(a: seq<Element>, b: seq<Element>)
    ensures AllInNamespace(a + b) <==> AllInNamespace(a) && AllInNamespace(b)
    decreases a
  {
    if a != [] {
      assert (a + b)[0] == a[0] && (a + b)[1..] == a[1..] + b;
      AllInNamespaceConcat(a[1..], b);
    } else {
      assert a + b == b;
    }
  }

  lemma LeafInNamespace(local: string, text: string)
    ensures InNamespace(Leaf(local, text))
  {
  }

  /** A calendar date as the date picker returns it. */
  datatype Date = Date(year: nat, month: nat, day: nat)

  function DigitChar(d: nat): (c: char)
    requires d < 10
    ensures '0' <= c <= '9' && c as int - '0' as int == d
  {
    ('0' as int + d) as char
  }

  /** Every character of `s` is a decimal digit. */
  predicate AllDigits(s: string) {
    forall i :: 0 <= i < |s| ==> '0' <= s[i] <= '9'
  }

  /** The number a digit string denotes, read most significant digit first. */
  function DecValue(s: string): int {
    if s == [] then 0 else DecValue(s[..|s| - 1]) * 10 + (s[|s| - 1] as int - '0' as int)
  }

  lemma {:induction false} DecValueConcat(a: string, b: string)
    ensures DecValue(a + b) == DecValue(a) * Pow10(|b|) + DecValue(b)
    decreases |b|
  {
    if b == [] {
      assert a + b == a;
    } else {
      var b' := b[..|b| - 1];
      assert (a + b)[..|a + b| - 1] == a + b';
      assert (a + b)[|a + b| - 1] == b[|b| - 1];
      DecValueConcat(a, b');
      calc {
        DecValue(a + b);
        DecValue(a + b') * 10 + (b[|b| - 1] as int - '0' as int);
        (DecValue(a) * Pow10(|b'|) + DecValue(b')) * 10 + (b[|b| - 1] as int - '0' as int);
        DecValue(a) * (Pow10(|b'|) * 10) + (DecValue(b') * 10 + (b[|b| - 1] as int - '0' as int));
        DecValue(a) * Pow10(|b|) + DecValue(b);
      }
    }
  }

  /** The decimal digits of `n`, without leading zeros. */
  function Digits(n: nat): (s: string)
    ensures |s| >= 1
  {
    if n < 10 then [DigitChar(n)] else Digits(n / 10) + [DigitChar(n % 10)]
  }

  function Pow10(k: nat): nat {
    if k == 0 then 1 else 10 * Pow10(k - 1)
  }

  lemma {:induction false} DigitsLength(n: nat, k: nat)
    requires 1 <= k && n < Pow10(k)
    ensures |Digits(n)| <= k
  {
    if n >= 10 {
      assert k > 1;
      DigitsLength(n / 10, k - 1);
    }
  }

  function Zeros(k: nat): (s: string)
    ensures |s| == k
  {
    if k == 0 then "" else "0" + Zeros(k - 1)
  }

  /** `Digits` spells `n` in decimal, with digits only. */
  lemma {:induction false} DigitsValue(n: nat)
    ensures DecValue(Digits(n)) == n && AllDigits(Digits(n))
  {
    if n >= 10 {
      DigitsValue(n / 10);
      var d := Digits(n);
      assert d[..|d| - 1] == Digits(n / 10);
    }
  }

  lemma {:induction false} ZerosValue(k: nat)
    ensures DecValue(Zeros(k)) == 0 && AllDigits(Zeros(k))
  {
    if k > 0 {
      ZerosValue(k - 1);
      DecValueConcat("0", Zeros(k - 1));
      assert DecValue("0") == 0 by { assert "0"[..0] == []; }
    }
  }

  /** Zero padding keeps the value. */
  lemma ZeroPadValue(n: nat, width: nat)
    ensures DecValue(ZeroPad(n, width)) == n
  {
    DigitsValue(n);
    var d := Digits(n);
    if |d| < width {
      ZerosValue(width - |d|);
      DecValueConcat(Zeros(width - |d|), d);
    }
  }

  /** Zero padding writes only digits. */
  lemma ZeroPadDigits(n: nat, width: nat)
    ensures AllDigits(ZeroPad(n, width))
  {
    DigitsValue(n);
    var d := Digits(n);
    if |d| < width {
      ZerosValue(width - |d|);
      AllDigitsConcat(Zeros(width - |d|), d);
    }
  }

  lemma AllDigitsConcat(a: string, b: string)
    requires AllDigits(a) && AllDigits(b)
    ensures AllDigits(a + b)
  {
    forall i | 0 <= i < |a + b|
      ensures '0' <= (a + b)[i] <= '9'
    {
      if i >= |a| { assert (a + b)[i] == b[i - |a|]; }
    }
  }

  /** `%0wd`: the digits of `n` left-padded with zeros to at least `width` characters. */
  function ZeroPad(n: nat, width: nat): (s: string)
    ensures |s| >= width
    ensures |Digits(n)| <= width ==> |s| == width
  {
    var d := Digits(n);
    if |d| >= width then d else Zeros(width - |d|) + d
  }

  /** `date.isoformat()`: `YYYY-MM-DD`. */
  function IsoFormat(d: Date): (r: string)
    ensures |r| >= 10
  {
    ZeroPad(d.year, 4) + "-" + ZeroPad(d.month, 2) + "-" + ZeroPad(d.day, 2)
  }

  /** For a date the picker can return, the ISO text has the fixed `YYYY-MM-DD` shape. */
  lemma IsoFormatShape(d: Date)
    requires 1 <= d.year <= 9999 && 1 <= d.month <= 12 && 1 <= d.day <= 31
    ensures |IsoFormat(d)| == 10 && IsoFormat(d)[4] == '-' && IsoFormat(d)[7] == '-'
    ensures DecValue(IsoFormat(d)[..4]) == d.year && AllDigits(IsoFormat(d)[..4])
    ensures DecValue(IsoFormat(d)[5..7]) == d.month && AllDigits(IsoFormat(d)[5..7])
    ensures DecValue(IsoFormat(d)[8..]) == d.day && AllDigits(IsoFormat(d)[8..])
  {
    DigitsLength(d.year, 4);
    DigitsLength(d.month, 2);
    DigitsLength(d.day, 2);
    ZeroPadValue(d.year, 4);
    ZeroPadValue(d.month, 2);
    ZeroPadValue(d.day, 2);
    ZeroPadDigits(d.year, 4);
    ZeroPadDigits(d.month, 2);
    ZeroPadDigits(d.day, 2);
    var y, m, dd := ZeroPad(d.year, 4), ZeroPad(d.month, 2), ZeroPad(d.day, 2);
    var r := IsoFormat(d);
    assert r == y + "-" + m + "-" + dd;
    assert r[..4] == y;
    assert r[5..7] == m;
    assert r[8..] == dd;
  }

  /** The submitted form, one field per widget. `useIban` is the account identifier radio button. */
  datatype AccountForm = AccountForm(
    msgId: string, msgCreDt: string, prcId: string, prcCreDt: string,
    useIban: bool, ibanInput: string, otherInput: string,
    acctName: string, acctStatus: string, acctType: string, currency: string,
    mnthlyPmt: string, mnthlyRcvd: string, mnthlyTxNb: string, avrgBal: string, acctPurp: string,
    goLive: Date, urgency: bool,
    bicfi: string,
    orgAnyBic: string, orgLei: string, orgName: string,
    adrLine1: string, adrLine2: string, town: string, postcode: string, country: string,
    contactName: string, contactEmail: string)

  /** `acct_iban`: the IBAN input when the IBAN option is chosen, otherwise empty. */
  function AcctIban(f: AccountForm): (r: string)
    ensures r != "" ==> f.useIban && r == f.ibanInput
    ensures !f.useIban ==> r == ""
  {
    if f.useIban then f.ibanInput else ""
  }

  /** `acct_other`: the other-identifier input when the Other option is chosen, otherwise empty. */
  function AcctOther(f: AccountForm): (r: string)
    ensures AcctIban(f) != "" ==> r == ""
  {
    if f.useIban then "" else f.otherInput
  }

  /** The `Tp/Cd` account type, present when the type code is non-empty. */
  function AcctTypePart(acctType: string): (r: seq<Element>)
    ensures |r| == (if acctType == "" then 0 else 1)
    ensures acctType != "" ==> r[0] == Node("Tp", [Leaf("Cd", acctType)])
  {
    if acctType == "" then [] else [Node("Tp", [Leaf("Cd", acctType)])]
  }

  function FlagText(b: bool): (t: string)
    ensures t == "true" || t == "false"
    ensures t == "true" <==> b
  {
    if b then "true" else "false"
  }

  /** The `Refs` subtree the page builds from the form. */
  function RefsTree(f: AccountForm): Element {
    Node("Refs",
      [Node("MsgId", [Leaf("Id", f.msgId), Leaf("CreDtTm", f.msgCreDt)])]
      + (if f.prcId != "" || f.prcCreDt != "" then [Node("PrcId", Opt("Id", f.prcId) + Opt("CreDtTm", f.prcCreDt))] else []))
  }

  /** The one child of `Acct/Id`: the IBAN when one is given, otherwise the other identifier, possibly empty. */
  function AcctIdLeaf(f: AccountForm): Element {
    if AcctIban(f) != "" then Leaf("IBAN", AcctIban(f)) else Leaf("Othr", AcctOther(f))
  }

  /** The optional children of `Acct`, in the page's order. */
  function AcctOptional(f: AccountForm): seq<Element> {
    Opt("Nm", f.acctName) + Opt("Sts", f.acctStatus) + AcctTypePart(f.acctType) + Opt("Ccy", f.currency)
    + Opt("MnthlyPmtVal", f.mnthlyPmt) + Opt("MnthlyRcvdVal", f.mnthlyRcvd) + Opt("MnthlyTxNb", f.mnthlyTxNb)
    + Opt("AvrgBal", f.avrgBal) + Opt("AcctPurp", f.acctPurp)
  }

  /** The `Acct` subtree the page builds from the form. */
  function AcctTree(f: AccountForm): Element {
    Node("Acct", [Node("Id", [AcctIdLeaf(f)])] + AcctOptional(f))
  }

  /** The `CtrctDts` subtree the page builds from the form. */
  function CtrctDtsTree(f: AccountForm): Element {
    Node("CtrctDts", [Leaf("TrgtGoLiveDt", IsoFormat(f.goLive)), Leaf("UrgcyFlg", FlagText(f.urgency))])
  }

  /** The `AcctSvcrId` subtree the page builds from the form. */
  function AcctSvcrIdTree(f: AccountForm): Element {
    Node("AcctSvcrId", [Node("FinInstnId", Opt("BICFI", f.bicfi))])
  }

  /** The `Org/Adr` subtree the page builds from the form. */
  function AdrTree(f: AccountForm): Element {
    Node("Adr", [Node("Tp", [Leaf("Cd", "ADDR")])] + Opt("AdrLine", f.adrLine1) + Opt("AdrLine", f.adrLine2)
                + Opt("PstCd", f.postcode) + Opt("TwnNm", f.town) + Opt("Ctry", f.country))
  }

  /** The `Org` subtree the page builds from the form. */
  function OrgTree(f: AccountForm): Element {
    Node("Org",
      [Node("OrgnStnId", Opt("AnyBIC", f.orgAnyBic) + Opt("LEI", f.orgLei))] + Opt("Nm", f.orgName)
      + [AdrTree(f), Node("CtctDtls", Opt("Nm", f.contactName) + Opt("EmailAdr", f.contactEmail))])
  }

  /** The whole document the page builds from the form. */
  function DocumentTree(f: AccountForm): Element {
    Node("Document", [Node("AcctOpngReq", [RefsTree(f), AcctTree(f), CtrctDtsTree(f), AcctSvcrIdTree(f), OrgTree(f)])])
  }

  /** The keys of the fields whose values are non-empty, in the given order. */
  function NonEmptyKeys(fields: seq<(string, string)>): (r: seq<string>)
    ensures |r| <= |fields|
  {
    if fields == [] then []
    else (if fields[0].1 == "" then [] else [fields[0].0]) + NonEmptyKeys(fields[1..])
  }

  lemma {:induction false} NamesConcat(a: seq<Element>, b: seq<Element>)
    ensures Names(a + b) == Names(a) + Names(b)
    decreases a
  {
    if a != [] {
      assert (a + b)[0] == a[0] && (a + b)[1..] == a[1..] + b;
      NamesConcat(a[1..], b);
    } else {
      assert a + b == b;
    }
  }

  lemma OptNames(local: string, value: string)
    ensures Names(Opt(local, value)) == (if value == "" then [] else [local])
  {
  }

  /** `Names(Opt(k1, v1) + Opt(k2, v2))` lists the keys of the non-empty values among the two. */
  lemma OptPairNames(k1: string, v1: string, k2: string, v2: string)
    ensures Names(Opt(k1, v1) + Opt(k2, v2)) == NonEmptyKeys([(k1, v1), (k2, v2)])
  {
    NamesConcat(Opt(k1, v1), Opt(k2, v2));
    OptNames(k1, v1);
    OptNames(k2, v2);
    assert [(k1, v1), (k2, v2)][1..] == [(k2, v2)];
    assert [(k2, v2)][1..] == [];
  }

  /**
   * `Refs` holds `MsgId` with the two message leaves, then `PrcId` iff a processing field is given,
   * holding the leaves of exactly the given processing fields.
   */
  lemma RefsTreeShape(f: AccountForm)
    ensures RefsTree(f).children[0] == Node("MsgId", [Leaf("Id", f.msgId), Leaf("CreDtTm", f.msgCreDt)])
    ensures |RefsTree(f).children| == 2 <==> f.prcId != "" || f.prcCreDt != ""
    ensures |RefsTree(f).children| == 2 ==> RefsTree(f).children[1].local == "PrcId"
    ensures |RefsTree(f).children| == 2 ==>
      Names(RefsTree(f).children[1].children) == NonEmptyKeys([("Id", f.prcId), ("CreDtTm", f.prcCreDt)])
  {
    OptPairNames("Id", f.prcId, "CreDtTm", f.prcCreDt);
  }

  /** Appending a part that holds just the leaf of one field, when given, extends the non-empty keys by that field. */
  lemma NamesSnoc(prefix: seq<Element>, fields: seq<(string, string)>, part: seq<Element>, key: string, value: string)
    requires Names(prefix) == NonEmptyKeys(fields)
    requires Names(part) == (if value == "" then [] else [key])
    ensures Names(prefix + part) == NonEmptyKeys(fields + [(key, value)])
  {
    NamesConcat(prefix, part);
    NonEmptyKeysSnoc(fields, (key, value));
  }

  lemma {:induction false} NonEmptyKeysSnoc(fields: seq<(string, string)>, last: (string, string))
    ensures NonEmptyKeys(fields + [last]) == NonEmptyKeys(fields) + (if last.1 == "" then [] else [last.0])
    decreases |fields|
  {
    if fields == [] {
      assert [last][1..] == [];
      assert fields + [last] == [last];
    } else {
      assert (fields + [last])[0] == fields[0] && (fields + [last])[1..] == fields[1..] + [last];
      NonEmptyKeysSnoc(fields[1..], last);
    }
  }

  /**
   * `Acct/Id` holds one leaf, `IBAN` exactly when an IBAN is given; after it come the keys of the
   * non-empty optional account fields, in the page's order.
   */
  lemma AcctTreeShape(f: AccountForm)
    ensures AcctTree(f).children[0] == Node("Id", [AcctIdLeaf(f)])
    ensures AcctIdLeaf(f).local == (if f.useIban && f.ibanInput != "" then "IBAN" else "Othr")
    ensures AcctIdLeaf(f).text == Some(if f.useIban && f.ibanInput != "" then f.ibanInput else AcctOther(f))
    ensures Names(AcctTree(f).children) == ["Id"] + NonEmptyKeys(AcctFields(f))
  {
    AcctOptionalNames(f);
    NamesConcat([Node("Id", [AcctIdLeaf(f)])], AcctOptional(f));
  }

  /** The optional account fields, keyed by the element each one becomes, in the page's order. */
  function AcctFields(f: AccountForm): (r: seq<(string, string)>)
    ensures |r| == 9
  {
    [("Nm", f.acctName)] + [("Sts", f.acctStatus)] + [("Tp", f.acctType)] + [("Ccy", f.currency)]
    + [("MnthlyPmtVal", f.mnthlyPmt)] + [("MnthlyRcvdVal", f.mnthlyRcvd)] + [("MnthlyTxNb", f.mnthlyTxNb)]
    + [("AvrgBal", f.avrgBal)] + [("AcctPurp", f.acctPurp)]
  }

  lemma AcctOptionalNames(f: AccountForm)
    ensures Names(AcctOptional(f)) == NonEmptyKeys(AcctFields(f))
  {
    var es := Opt("Nm", f.acctName);
    var fs := [("Nm", f.acctName)];
    OptNames("Nm", f.acctName);
    assert fs[1..] == [];
    OptNames("Sts", f.acctStatus); NamesSnoc(es, fs, Opt("Sts", f.acctStatus), "Sts", f.acctStatus);
    es, fs := es + Opt("Sts", f.acctStatus), fs + [("Sts", f.acctStatus)];
    NamesSnoc(es, fs, AcctTypePart(f.acctType), "Tp", f.acctType);
    es, fs := es + AcctTypePart(f.acctType), fs + [("Tp", f.acctType)];
    OptNames("Ccy", f.currency); NamesSnoc(es, fs, Opt("Ccy", f.currency), "Ccy", f.currency);
    es, fs := es + Opt("Ccy", f.currency), fs + [("Ccy", f.currency)];
    OptNames("MnthlyPmtVal", f.mnthlyPmt); NamesSnoc(es, fs, Opt("MnthlyPmtVal", f.mnthlyPmt), "MnthlyPmtVal", f.mnthlyPmt);
    es, fs := es + Opt("MnthlyPmtVal", f.mnthlyPmt), fs + [("MnthlyPmtVal", f.mnthlyPmt)];
    OptNames("MnthlyRcvdVal", f.mnthlyRcvd); NamesSnoc(es, fs, Opt("MnthlyRcvdVal", f.mnthlyRcvd), "MnthlyRcvdVal", f.mnthlyRcvd);
    es, fs := es + Opt("MnthlyRcvdVal", f.mnthlyRcvd), fs + [("MnthlyRcvdVal", f.mnthlyRcvd)];
    OptNames("MnthlyTxNb", f.mnthlyTxNb); NamesSnoc(es, fs, Opt("MnthlyTxNb", f.mnthlyTxNb), "MnthlyTxNb", f.mnthlyTxNb);
    es, fs := es + Opt("MnthlyTxNb", f.mnthlyTxNb), fs + [("MnthlyTxNb", f.mnthlyTxNb)];
    OptNames("AvrgBal", f.avrgBal); NamesSnoc(es, fs, Opt("AvrgBal", f.avrgBal), "AvrgBal", f.avrgBal);
    es, fs := es + Opt("AvrgBal", f.avrgBal), fs + [("AvrgBal", f.avrgBal)];
    OptNames("AcctPurp", f.acctPurp); NamesSnoc(es, fs, Opt("AcctPurp", f.acctPurp), "AcctPurp", f.acctPurp);
  }

  /** `CtrctDts` holds the ISO go-live date and then the urgency text. */
  lemma CtrctDtsTreeShape(f: AccountForm)
    ensures Names(CtrctDtsTree(f).children) == ["TrgtGoLiveDt", "UrgcyFlg"]
    ensures CtrctDtsTree(f).children[0].text == Some(IsoFormat(f.goLive))
    ensures CtrctDtsTree(f).children[1].text == Some(if f.urgency then "true" else "false")
  {
  }

  /** `AcctSvcrId/FinInstnId` is always there and holds `BICFI` iff it is given. */
  lemma AcctSvcrIdTreeShape(f: AccountForm)
    ensures Names(AcctSvcrIdTree(f).children) == ["FinInstnId"]
    ensures Names(AcctSvcrIdTree(f).children[0].children) == NonEmptyKeys([("BICFI", f.bicfi)])
  {
    OptNames("BICFI", f.bicfi);
    assert [("BICFI", f.bicfi)][1..] == [];
  }

  /** `Adr` starts with `Tp`, then names the non-empty address fields in the page's order. */
  lemma AdrTreeShape(f: AccountForm)
    ensures AdrTree(f).children[0] == Node("Tp", [Leaf("Cd", "ADDR")])
    ensures Names(AdrTree(f).children) == ["Tp"] + NonEmptyKeys(
      [("AdrLine", f.adrLine1), ("AdrLine", f.adrLine2), ("PstCd", f.postcode), ("TwnNm", f.town), ("Ctry", f.country)])
  {
    var es: seq<Element> := [Node("Tp", [Leaf("Cd", "ADDR")])];
    var fs: seq<(string, string)> := [("Tp", "ADDR")];
    assert [("Tp", "ADDR")][1..] == [];
    OptNames("AdrLine", f.adrLine1); NamesSnoc(es, fs, Opt("AdrLine", f.adrLine1), "AdrLine", f.adrLine1);
    es, fs := es + Opt("AdrLine", f.adrLine1), fs + [("AdrLine", f.adrLine1)];
    OptNames("AdrLine", f.adrLine2); NamesSnoc(es, fs, Opt("AdrLine", f.adrLine2), "AdrLine", f.adrLine2);
    es, fs := es + Opt("AdrLine", f.adrLine2), fs + [("AdrLine", f.adrLine2)];
    OptNames("PstCd", f.postcode); NamesSnoc(es, fs, Opt("PstCd", f.postcode), "PstCd", f.postcode);
    es, fs := es + Opt("PstCd", f.postcode), fs + [("PstCd", f.postcode)];
    OptNames("TwnNm", f.town); NamesSnoc(es, fs, Opt("TwnNm", f.town), "TwnNm", f.town);
    es, fs := es + Opt("TwnNm", f.town), fs + [("TwnNm", f.town)];
    OptNames("Ctry", f.country); NamesSnoc(es, fs, Opt("Ctry", f.country), "Ctry", f.country);
    es, fs := es + Opt("Ctry", f.country), fs + [("Ctry", f.country)];
    assert es == AdrTree(f).children;
    assert fs[0] == ("Tp", "ADDR") && fs[1..] == [("AdrLine", f.adrLine1), ("AdrLine", f.adrLine2),
      ("PstCd", f.postcode), ("TwnNm", f.town), ("Ctry", f.country)];
  }

  /**
   * `Org` names `OrgnStnId`, `Nm` iff given, `Adr` and `CtctDtls`; the identification and the contact
   * details each hold the leaves of exactly their non-empty fields.
   */
  lemma OrgTreeShape(f: AccountForm)
    ensures Names(OrgTree(f).children) == ["OrgnStnId"] + NonEmptyKeys([("Nm", f.orgName)]) + ["Adr", "CtctDtls"]
    ensures Names(OrgTree(f).children[0].children) == NonEmptyKeys([("AnyBIC", f.orgAnyBic), ("LEI", f.orgLei)])
    ensures OrgTree(f).children[|OrgTree(f).children| - 2] == AdrTree(f)
    ensures Names(OrgTree(f).children[|OrgTree(f).children| - 1].children)
         == NonEmptyKeys([("Nm", f.contactName), ("EmailAdr", f.contactEmail)])
  {
    var id := Node("OrgnStnId", Opt("AnyBIC", f.orgAnyBic) + Opt("LEI", f.orgLei));
    var ctc := Node("CtctDtls", Opt("Nm", f.contactName) + Opt("EmailAdr", f.contactEmail));
    var name := Opt("Nm", f.orgName);
    var tail := [AdrTree(f), ctc];
    assert OrgTree(f).children == [id] + name + tail;
    assert Names([id] + name) == ["OrgnStnId"] + NonEmptyKeys([("Nm", f.orgName)]) by {
      NamesConcat([id], name);
      OptNames("Nm", f.orgName);
      assert [("Nm", f.orgName)][1..] == [];
    }
    assert Names(tail) == ["Adr", "CtctDtls"];
    NamesConcat([id] + name, tail);
    assert Names(id.children) == NonEmptyKeys([("AnyBIC", f.orgAnyBic), ("LEI", f.orgLei)]) by {
      OptPairNames("AnyBIC", f.orgAnyBic, "LEI", f.orgLei);
    }
    assert Names(ctc.children) == NonEmptyKeys([("Nm", f.contactName), ("EmailAdr", f.contactEmail)]) by {
      OptPairNames("Nm", f.contactName, "EmailAdr", f.contactEmail);
    }
  }

  /** `Document` holds only `AcctOpngReq`, whose sections come in the page's order. */
  lemma DocumentTreeShape(f: AccountForm)
    ensures Names(DocumentTree(f).children) == ["AcctOpngReq"]
    ensures Names(DocumentTree(f).children[0].children) == ["Refs", "Acct", "CtrctDts", "AcctSvcrId", "Org"]
    ensures DocumentTree(f).children[0].children
         == [RefsTree(f), AcctTree(f), CtrctDtsTree(f), AcctSvcrIdTree(f), OrgTree(f)]
  {
  }

  /** `ET.SubElement(parent, ...)`: append a child to the parent's child sequence. */
  method Append(children: seq<Element>, e: Element) returns (r: seq<Element>)
    ensures r == children + [e]
    ensures AllInNamespace(children) && InNamespace(e) ==> AllInNamespace(r)
  {
    r := children + [e];
    if InNamespace(e) {
      assert [e][1..] == [];
      assert AllInNamespace([e]);
    }
    AllInNamespaceConcat(children, [e]);
  }

  /** `if value: ET.SubElement(parent, local).text = value`, on the parent's child sequence. */
  method AppendIfPresent(children: seq<Element>, local: string, value: string) returns (r: seq<Element>)
    ensures r == children + Opt(local, value)
    ensures AllInNamespace(children) ==> AllInNamespace(r)
  {
    r := children;
    if value != "" {
      LeafInNamespace(local, value);
      r := Append(r, Leaf(local, value));
    }
  }

  /** `Refs`: `MsgId` always, `PrcId` when either processing field is given, holding only the given ones. */
  method BuildRefs(f: AccountForm) returns (refs: Element)
    ensures refs == RefsTree(f) && InNamespace(refs)
  {
    var msg := Append([], Leaf("Id", f.msgId));
    msg := Append(msg, Leaf("CreDtTm", f.msgCreDt));
    assert msg == [Leaf("Id", f.msgId), Leaf("CreDtTm", f.msgCreDt)];
    var children := Append([], Node("MsgId", msg));
    assert children == [Node("MsgId", msg)];
    if f.prcId != "" || f.prcCreDt != "" {
      var prc := AppendIfPresent([], "Id", f.prcId);
      prc := AppendIfPresent(prc, "CreDtTm", f.prcCreDt);
      assert prc == Opt("Id", f.prcId) + Opt("CreDtTm", f.prcCreDt);
      children := Append(children, Node("PrcId", prc));
    }
    refs := Node("Refs", children);
  }

  /** `Acct`: `Id` with exactly one identifier, then each optional field, in fixed order, iff non-empty. */
  method BuildAcct(f: AccountForm) returns (acct: Element)
    ensures acct == AcctTree(f) && InNamespace(acct)
  {
    var acctIban := AcctIban(f);
    var acctOther := AcctOther(f);
    var id: seq<Element>;
    if acctIban != "" {
      id := Append([], Leaf("IBAN", acctIban));
    } else {
      id := Append([], Leaf("Othr", acctOther));
    }
    assert id == [AcctIdLeaf(f)];
    var rest := AppendIfPresent([], "Nm", f.acctName);
    rest := AppendIfPresent(rest, "Sts", f.acctStatus);
    if f.acctType != "" {
      var tp := Append([], Leaf("Cd", f.acctType));
      assert tp == [Leaf("Cd", f.acctType)];
      rest := Append(rest, Node("Tp", tp));
    }
    assert rest == Opt("Nm", f.acctName) + Opt("Sts", f.acctStatus) + AcctTypePart(f.acctType);
    rest := AppendIfPresent(rest, "Ccy", f.currency);
    rest := AppendIfPresent(rest, "MnthlyPmtVal", f.mnthlyPmt);
    rest := AppendIfPresent(rest, "MnthlyRcvdVal", f.mnthlyRcvd);
    rest := AppendIfPresent(rest, "MnthlyTxNb", f.mnthlyTxNb);
    rest := AppendIfPresent(rest, "AvrgBal", f.avrgBal);
    rest := AppendIfPresent(rest, "AcctPurp", f.acctPurp);
    assert rest == AcctOptional(f);
    var head := Append([], Node("Id", id));
    assert head == [Node("Id", [AcctIdLeaf(f)])];
    AllInNamespaceConcat(head, rest);
    acct := Node("Acct", head + rest);
  }

  /** `Adr`: `Tp/Cd = ADDR` first, then the address lines, postcode, town and country, each iff non-empty. */
  method BuildAdr(f: AccountForm) returns (adr: Element)
    ensures adr == AdrTree(f) && InNamespace(adr)
  {
    var tp := Append([], Leaf("Cd", "ADDR"));
    assert tp == [Leaf("Cd", "ADDR")];
    var children := Append([], Node("Tp", tp));
    assert children == [Node("Tp", [Leaf("Cd", "ADDR")])];
    children := AppendIfPresent(children, "AdrLine", f.adrLine1);
    children := AppendIfPresent(children, "AdrLine", f.adrLine2);
    children := AppendIfPresent(children, "PstCd", f.postcode);
    children := AppendIfPresent(children, "TwnNm", f.town);
    children := AppendIfPresent(children, "Ctry", f.country);
    adr := Node("Adr", children);
  }

  /** `Org`: `OrgnStnId` always, `Nm` iff given, then `Adr` and `CtctDtls`, both always present. */
  method BuildOrg(f: AccountForm) returns (org: Element)
    ensures org == OrgTree(f) && InNamespace(org)
  {
    var orgId := AppendIfPresent([], "AnyBIC", f.orgAnyBic);
    orgId := AppendIfPresent(orgId, "LEI", f.orgLei);
    assert orgId == Opt("AnyBIC", f.orgAnyBic) + Opt("LEI", f.orgLei);
    var children := Append([], Node("OrgnStnId", orgId));
    assert children == [Node("OrgnStnId", orgId)];
    children := AppendIfPresent(children, "Nm", f.orgName);
    ghost var upToName := children;
    var adr := BuildAdr(f);
    children := Append(children, adr);
    var ctc := AppendIfPresent([], "Nm", f.contactName);
    ctc := AppendIfPresent(ctc, "EmailAdr", f.contactEmail);
    assert ctc == Opt("Nm", f.contactName) + Opt("EmailAdr", f.contactEmail);
    children := Append(children, Node("CtctDtls", ctc));
    assert children == upToName + [AdrTree(f), Node("CtctDtls", ctc)];
    org := Node("Org", children);
  }

  /** `CtrctDts`: the go-live date in ISO form and the urgency flag, always both. */
  method BuildCtrctDts(f: AccountForm) returns (ctrE: Element)
    ensures ctrE == CtrctDtsTree(f) && InNamespace(ctrE)
  {
    LeafInNamespace("TrgtGoLiveDt", IsoFormat(f.goLive));
    var ctr := Append([], Leaf("TrgtGoLiveDt", IsoFormat(f.goLive)));
    LeafInNamespace("UrgcyFlg", if f.urgency then "true" else "false");
    ctr := Append(ctr, Leaf("UrgcyFlg", if f.urgency then "true" else "false"));
    assert ctr == [Leaf("TrgtGoLiveDt", IsoFormat(f.goLive)), Leaf("UrgcyFlg", FlagText(f.urgency))];
    ctrE := Node("CtrctDts", ctr);
  }

  /** `AcctSvcrId/FinInstnId`, always present, holding `BICFI` iff it is given. */
  method BuildAcctSvcrId(f: AccountForm) returns (svcrE: Element)
    ensures svcrE == AcctSvcrIdTree(f) && InNamespace(svcrE)
  {
    var fin := AppendIfPresent([], "BICFI", f.bicfi);
    assert fin == Opt("BICFI", f.bicfi);
    var svcr := Append([], Node("FinInstnId", fin));
    assert svcr == [Node("FinInstnId", fin)];
    svcrE := Node("AcctSvcrId", svcr);
  }

  /** The tree built under `if submitted:`, section by section, every element in the acmt.007.001.05 namespace. */
  method BuildAccountOpeningRequest(f: AccountForm) returns (doc: Element)
    ensures doc == DocumentTree(f) && InNamespace(doc)
  {
    var refs := BuildRefs(f);
    var acct := BuildAcct(f);
    var ctrE := BuildCtrctDts(f);
    var svcrE := BuildAcctSvcrId(f);
    var org := BuildOrg(f);
    var req := Append([], refs);
    req := Append(req, acct);
    req := Append(req, ctrE);
    req := Append(req, svcrE);
    req := Append(req, org);
    assert req == [refs, acct, ctrE, svcrE, org];
    var root := Append([], Node("AcctOpngReq", req));
    assert root == [Node("AcctOpngReq", req)];
    doc := Node("Document", root);
  }
}
