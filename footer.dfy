/**
 * The footer component: the HTML markup of the standard footer (copyright,
 * version and an optional row of links) and of the simple text footer.
 * Handing the markup to the page renderer is not modelled.
 */
module Footer {
  import opened Common

  /** A footer link: the anchor text and its target. */
  datatype Link = Link(text: string, url: string)

  /** The footer part of the application configuration; `footerLinks` is `None` when the key is missing. */
  datatype FooterConfig = FooterConfig(
    copyrightYear: string, copyrightHolder: string, version: string,
    footerLinks: Option<seq<Link>>)

  /** The style sheet and the opening of the footer, up to the copyright year, one style rule per piece. */
  const StyleAndOpen: string := StyleFooter + StyleLink + StyleHover + StyleContent + OpenDivs

  const StyleFooter: string := @"
    <style>
        .footer {
            position: fixed;
            left: 0;
            bottom: 0;
            width: 100%;
            background-color: #f0f2f6;
            color: #262730;
            text-align: center;
            padding: 10px 0;
            font-size: 14px;
            border-top: 1px solid #e0e0e0;
            z-index: 999;
        }
"

  const StyleLink: string := @"        .footer a {
            color: #FF4B4B;
            text-decoration: none;
            margin: 0 10px;
        }
"

  const StyleHover: string := @"        .footer a:hover {
            text-decoration: underline;
        }
"

  const StyleContent: string := @"        .footer-content {
            max-width: 1200px;
            margin: 0 auto;
            padding: 0 20px;
        }
"

  const OpenDivs: string := @"    </style>
    <div class=""footer"">
        <div class=""footer-content"">
            <span>© "

  /** Between the copyright line and the version. */
  const BeforeVersion: string := @"</span>
            <span style=""margin: 0 5px;"">|</span>
            <span>v"

  const AfterVersion: string := @"</span>
    "

  /** The closing of the footer. */
  const FooterTail: string := @"
        </div>
    </div>
    "

  /** The `|` separator that opens the link section. */
  const Bar: string := @"<span style=""margin: 0 5px;"">|</span>"

  /** The `•` separator between two consecutive links. */
  const Bullet: string := @"<span style=""margin: 0 5px;"">•</span>"

  function AnchorHtml(link: Link): string {
    "<a href=\"" + link.url + "\" target=\"_blank\">" + link.text + "</a>"
  }

  /** The markup before the link section: style, copyright year and holder, version. */
  function FooterHead(cfg: FooterConfig): string {
    StyleAndOpen + cfg.copyrightYear + " " + cfg.copyrightHolder + BeforeVersion + cfg.version + AfterVersion
  }

  /** `APP_CONFIG.get('footer_links')` is truthy: the key is set to a non-empty list. */
  predicate HasLinks(cfg: FooterConfig) {
    cfg.footerLinks.Some? && cfg.footerLinks.value != []
  }

  /** One piece of the link section: an anchor for a link, or a `•` separator. */
  datatype Token = AnchorTok(link: Link) | BulletTok

  /** Position `k` of the link section: the anchor of link `k / 2` at even positions, a separator at odd ones. */
  function TokenAt(links: seq<Link>, k: nat): Token
    requires k < 2 * |links|
  {
    if k % 2 == 0 then AnchorTok(links[k / 2]) else BulletTok
  }

  /** The link section as a token sequence: the anchors in list order with a separator between each two. */
  function LinkTokens(links: seq<Link>): (r: seq<Token>)
    ensures |r| == if links == [] then 0 else 2 * |links| - 1
    ensures forall k :: 0 <= k < |r| ==> r[k] == TokenAt(links, k)
  {
    if links == [] then []
    else seq(2 * |links| - 1, k requires 0 <= k < 2 * |links| - 1 => TokenAt(links, k))
  }

  function TokenHtml(t: Token): string {
    match t
    case AnchorTok(link) => AnchorHtml(link)
    case BulletTok => Bullet
  }

  function Render(ts: seq<Token>): string {
    if ts == [] then "" else TokenHtml(ts[0]) + Render(ts[1..])
  }

  /** The links carried by the anchor tokens, in order. */
  function Anchors(ts: seq<Token>): seq<Link> {
    if ts == [] then []
    else (if ts[0].AnchorTok? then [ts[0].link] else []) + Anchors(ts[1..])
  }

  function BulletCount(ts: seq<Token>): nat {
    if ts == [] then 0 else (if ts[0] == BulletTok then 1 else 0) + BulletCount(ts[1..])
  }

  /** The whole footer markup. */
  function FooterHtml(cfg: FooterConfig): string {
    FooterHead(cfg)
    + (if HasLinks(cfg) then Bar + Render(LinkTokens(cfg.footerLinks.value)) else "")
    + FooterTail
  }

  /** An anchor carries the link's URL and then its text, opening in a new tab. */
  lemma AnchorFields(link: Link)
    ensures OccursAt(AnchorHtml(link), "<a href=\"", 0)
    ensures OccursAt(AnchorHtml(link), link.url, 9)
    ensures OccursAt(AnchorHtml(link), "\" target=\"_blank\">", 9 + |link.url|)
    ensures OccursAt(AnchorHtml(link), link.text, 9 + |link.url| + 18)
    ensures OccursAt(AnchorHtml(link), "</a>", |AnchorHtml(link)| - 4)
    ensures |AnchorHtml(link)| == 9 + |link.url| + 18 + |link.text| + 4
  {
    var s := AnchorHtml(link);
    assert s[..9] == "<a href=\"";
    assert s[|s| - 4..] == "</a>";
  }

  /** The footer starts with its head: style, copyright and version. */
  lemma FooterStartsWithHead(cfg: FooterConfig)
    ensures FooterHead(cfg) <= FooterHtml(cfg)
  {
    Frame(FooterHead(cfg), if HasLinks(cfg) then Bar + Render(LinkTokens(cfg.footerLinks.value)) else "", FooterTail);
  }

  /** The footer ends with its closing markup. */
  lemma FooterEndsWithTail(cfg: FooterConfig)
    ensures OccursAt(FooterHtml(cfg), FooterTail, |FooterHtml(cfg)| - |FooterTail|)
  {
    Frame(FooterHead(cfg), if HasLinks(cfg) then Bar + Render(LinkTokens(cfg.footerLinks.value)) else "", FooterTail);
  }

  /** A string made of a head, a middle and a tail starts with the head and ends with the tail. */
  lemma Frame(head: string, middle: string, tail: string)
    ensures head <= head + middle + tail
    ensures OccursAt(head + middle + tail, tail, |head + middle + tail| - |tail|)
  {
    var s := head + middle + tail;
    assert s[..|head|] == head;
    assert s[|s| - |tail|..] == tail;
  }

  /** `footer_links` that is unset or an empty list is falsy, and no link section is rendered. */
  lemma HasLinksFalsy(cfg: FooterConfig)
    ensures cfg.footerLinks == None ==> !HasLinks(cfg)
    ensures cfg.footerLinks == Some([]) ==> !HasLinks(cfg)
    ensures HasLinks(cfg) ==> |cfg.footerLinks.value| >= 1
  {
  }

  /** `s` holds `sub` starting at position `k`. */
  predicate OccursAt(s: string, sub: string, k: int) {
    0 <= k && k + |sub| <= |s| && s[k..k + |sub|] == sub
  }

  /** The section for two or more links is the first anchor, a separator, and the section for the rest. */
  lemma LinkTokensCons(links: seq<Link>)
    requires |links| >= 2
    ensures LinkTokens(links) == [AnchorTok(links[0]), BulletTok] + LinkTokens(links[1..])
  {
    var ts := LinkTokens(links);
    var rest := LinkTokens(links[1..]);
    forall k | 2 <= k < |ts|
      ensures ts[k] == rest[k - 2]
    {
      assert (k - 2) % 2 == k % 2 && (k - 2) / 2 == k / 2 - 1;
      assert ts[k] == TokenAt(links, k);
      assert rest[k - 2] == TokenAt(links[1..], k - 2);
    }
    assert ts == [AnchorTok(links[0]), BulletTok] + rest;
  }

  /** Exactly one anchor per link, in list order, and no other anchors. */
  lemma {:induction false} AnchorsInOrder(links: seq<Link>)
    ensures Anchors(LinkTokens(links)) == links
    decreases |links|
  {
    var ts := LinkTokens(links);
    if |links| == 1 {
      assert ts == [AnchorTok(links[0])];
      assert Anchors(ts) == [links[0]] + Anchors([]);
    } else if |links| > 1 {
      LinkTokensCons(links);
      AnchorsInOrder(links[1..]);
      assert ts[1..][1..] == LinkTokens(links[1..]);
      assert Anchors(ts[1..]) == links[1..];
      assert links == [links[0]] + links[1..];
    }
  }

  /** `n` links give `n - 1` separators (none for no links). */
  lemma {:induction false} BulletsBetween(links: seq<Link>)
    ensures BulletCount(LinkTokens(links)) == if links == [] then 0 else |links| - 1
    decreases |links|
  {
    var ts := LinkTokens(links);
    if |links| == 1 {
      assert ts == [AnchorTok(links[0])];
      assert BulletCount(ts) == BulletCount([]);
    } else if |links| > 1 {
      LinkTokensCons(links);
      BulletsBetween(links[1..]);
      assert ts[1..][1..] == LinkTokens(links[1..]);
    }
  }

  /** A separator sits between each two consecutive anchors, and the section ends with the last link's anchor. */
  lemma SeparatorsBetweenOnly(links: seq<Link>)
    requires links != []
    ensures forall i :: 0 <= i < |links| - 1 ==>
      LinkTokens(links)[2 * i] == AnchorTok(links[i]) && LinkTokens(links)[2 * i + 1] == BulletTok
    ensures LinkTokens(links)[|LinkTokens(links)| - 1] == AnchorTok(links[|links| - 1])
  {
    var ts := LinkTokens(links);
    forall i | 0 <= i < |links| - 1
      ensures ts[2 * i] == AnchorTok(links[i]) && ts[2 * i + 1] == BulletTok
    {
      assert (2 * i) % 2 == 0 && (2 * i) / 2 == i && (2 * i + 1) % 2 == 1;
      assert ts[2 * i] == TokenAt(links, 2 * i);
      assert ts[2 * i + 1] == TokenAt(links, 2 * i + 1);
    }
    var last := 2 * (|links| - 1);
    assert last % 2 == 0 && last / 2 == |links| - 1;
    assert ts[last] == TokenAt(links, last);
  }

  lemma {:induction false} RenderAppend(ts: seq<Token>, t: Token)
    ensures Render(ts + [t]) == Render(ts) + TokenHtml(t)
    decreases |ts|
  {
    if ts == [] {
      assert [t][1..] == [];
    } else {
      assert (ts + [t])[1..] == ts[1..] + [t];
      RenderAppend(ts[1..], t);
    }
  }

  /** `render_footer`: the markup built piece by piece, the link section by one loop over the links. */
  method RenderFooter(cfg: FooterConfig) returns (html: string)
    ensures html == FooterHtml(cfg)
  {
    var head := FooterHead(cfg);
    html := head;
    if HasLinks(cfg) {
      html := html + Bar;
      html := AppendLinks(html, cfg.footerLinks.value);
      ConcatAssoc(head, Bar, Render(LinkTokens(cfg.footerLinks.value)));
    }
    html := html + FooterTail;
  }

  /** Emitting link `i` extends the emitted tokens by its anchor, then by a separator unless it is the last. */
  lemma LinkTokensStep(links: seq<Link>, i: nat)
    requires i < |links|
    ensures LinkTokens(links)[..2 * i + 1] == LinkTokens(links)[..2 * i] + [AnchorTok(links[i])]
    ensures i < |links| - 1 ==> LinkTokens(links)[..2 * i + 2] == LinkTokens(links)[..2 * i + 1] + [BulletTok]
    ensures i == |links| - 1 ==> LinkTokens(links)[..2 * i + 1] == LinkTokens(links)
  {
    var ts := LinkTokens(links);
    assert (2 * i) % 2 == 0 && (2 * i) / 2 == i && (2 * i + 1) % 2 == 1;
    assert ts[2 * i] == TokenAt(links, 2 * i);
    assert ts[..2 * i + 1] == ts[..2 * i] + [ts[2 * i]];
    if i < |links| - 1 {
      assert ts[2 * i + 1] == TokenAt(links, 2 * i + 1);
      assert ts[..2 * i + 2] == ts[..2 * i + 1] + [ts[2 * i + 1]];
    }
  }

  /** Appending the anchor of link `i` extends the rendered prefix by that anchor. */
  lemma AnchorStep(start: string, html: string, links: seq<Link>, i: nat)
    requires i < |links| && html == start + Render(LinkTokens(links)[..2 * i])
    ensures html + AnchorHtml(links[i]) == start + Render(LinkTokens(links)[..2 * i + 1])
    ensures i == |links| - 1 ==> html + AnchorHtml(links[i]) == start + Render(LinkTokens(links))
  {
    var ts := LinkTokens(links);
    LinkTokensStep(links, i);
    RenderAppend(ts[..2 * i], AnchorTok(links[i]));
    ConcatAssoc(start, Render(ts[..2 * i]), AnchorHtml(links[i]));
  }

  /** Appending a separator after link `i`, not the last, extends the rendered prefix by that separator. */
  lemma BulletStep(start: string, html: string, links: seq<Link>, i: nat)
    requires i < |links| - 1 && html == start + Render(LinkTokens(links)[..2 * i + 1])
    ensures html + Bullet == start + Render(LinkTokens(links)[..2 * (i + 1)])
  {
    var ts := LinkTokens(links);
    LinkTokensStep(links, i);
    RenderAppend(ts[..2 * i + 1], BulletTok);
    ConcatAssoc(start, Render(ts[..2 * i + 1]), Bullet);
    assert 2 * (i + 1) == 2 * i + 2;
  }

  lemma ConcatAssoc(a: string, b: string, c: string)
    ensures (a + b) + c == a + (b + c)
  {
  }

  /** The loop over the links: each anchor is appended, followed by `•` unless it is the last. */
  method AppendLinks(start: string, links: seq<Link>) returns (html: string)
    requires links != []
    ensures html == start + Render(LinkTokens(links))
  {
    html := start;
    var n := |links|;
    for i := 0 to n
      invariant i < n ==> html == start + Render(LinkTokens(links)[..2 * i])
      invariant i == n ==> html == start + Render(LinkTokens(links))
    {
      AnchorStep(start, html, links, i);
      html := html + AnchorHtml(links[i]);
      if i < n - 1 {
        BulletStep(start, html, links, i);
        html := html + Bullet;
      }
    }
  }

  /** Where the three configured fields sit in markup of the footer's shape. */
  lemma FieldsAt(p: string, y: string, h: string, q: string, v: string, a: string, l: string, t: string)
    ensures OccursAt(p + y + " " + h + q + v + a + l + t, y, |p|)
    ensures OccursAt(p + y + " " + h + q + v + a + l + t, h, |p| + |y| + 1)
    ensures OccursAt(p + y + " " + h + q + v + a + l + t, v, |p| + |y| + 1 + |h| + |q|)
  {
    var s := p + y + " " + h + q + v + a + l + t;
    assert s[|p|..|p| + |y|] == y;
    assert s[|p| + |y| + 1..|p| + |y| + 1 + |h|] == h;
    assert s[|p| + |y| + 1 + |h| + |q|..|p| + |y| + 1 + |h| + |q| + |v|] == v;
  }

  /** The copyright year, the holder and the version appear, in that order, at fixed positions. */
  lemma FooterShowsCopyrightAndVersion(cfg: FooterConfig)
    ensures OccursAt(FooterHtml(cfg), cfg.copyrightYear, |StyleAndOpen|)
    ensures OccursAt(FooterHtml(cfg), cfg.copyrightHolder, |StyleAndOpen| + |cfg.copyrightYear| + 1)
    ensures OccursAt(FooterHtml(cfg), cfg.version,
                     |StyleAndOpen| + |cfg.copyrightYear| + 1 + |cfg.copyrightHolder| + |BeforeVersion|)
  {
    FieldsAt(StyleAndOpen, cfg.copyrightYear, cfg.copyrightHolder, BeforeVersion, cfg.version, AfterVersion,
             if HasLinks(cfg) then Bar + Render(LinkTokens(cfg.footerLinks.value)) else "", FooterTail);
  }

  /** The link section, opened by the `|` separator, is present iff there are links. */
  lemma LinkSectionIffLinks(cfg: FooterConfig)
    ensures FooterHtml(cfg) == FooterHead(cfg) + FooterTail <==> !HasLinks(cfg)
    ensures HasLinks(cfg) ==> OccursAt(FooterHtml(cfg), Bar, |FooterHead(cfg)|)
  {
    if HasLinks(cfg) {
      Section(FooterHead(cfg), Bar, Render(LinkTokens(cfg.footerLinks.value)), FooterTail);
    } else {
      assert FooterHead(cfg) + "" == FooterHead(cfg);
    }
  }

  /** A non-empty section between a head and a tail is found right after the head, and is not lost. */
  lemma Section(head: string, bar: string, rest: string, tail: string)
    requires bar != ""
    ensures head + (bar + rest) + tail != head + tail
    ensures OccursAt(head + (bar + rest) + tail, bar, |head|)
  {
    var s := head + (bar + rest) + tail;
    assert |s| > |head + tail|;
    assert s[|head|..|head| + |bar|] == bar;
  }

  /** The fixed markup before and after the text of the simple footer. */
  const SimpleOpen: string := @"
    <style>
        .simple-footer {
            position: fixed;
            left: 0;
            bottom: 0;
            width: 100%;
            background-color: #f0f2f6;
            color: #262730;
            text-align: center;
            padding: 10px 0;
            font-size: 14px;
            border-top: 1px solid #e0e0e0;
            z-index: 999;
        }
    </style>
    <div class=""simple-footer"">
        "

  const SimpleClose: string := @"
    </div>
    "

  /** `render_simple_footer`: the text is placed, unescaped, inside the footer's div. */
  function SimpleFooterHtml(text: string): (r: string)
    ensures |r| == |SimpleOpen| + |text| + |SimpleClose|
    ensures r[..|SimpleOpen|] == SimpleOpen
    ensures OccursAt(r, text, |SimpleOpen|)
    ensures r[|SimpleOpen| + |text|..] == SimpleClose
  {
    SimpleOpen + text + SimpleClose
  }

  /** Nothing of the text is lost or rewritten: different texts give different footers. */
  lemma SimpleFooterInjective(a: string, b: string)
    requires a != b
    ensures SimpleFooterHtml(a) != SimpleFooterHtml(b)
  {
    if |a| == |b| {
      var k := |SimpleOpen|;
      assert SimpleFooterHtml(a)[k..k + |a|] == a;
      assert SimpleFooterHtml(b)[k..k + |b|] == b;
    }
  }
}
