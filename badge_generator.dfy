/**
 * The shields.io badge generator: the badge URL built from the form, its
 * Markdown, and the name of the downloaded file.
 *
 * `encodeURIComponent` is the parameter `enc` and the form encoding that
 * `URLSearchParams` applies is `formEnc`; neither is re-specified.
 */
module BadgeGenerator {
  import opened Wrappers
  import opened Seqs

  const BASE_URL: string := "https://img.shields.io/badge"

  /** `BadgeConfig`; `style` holds one of the select's values and `labelText` is `label`. */
  datatype BadgeConfig = BadgeConfig(
    text: string,
    style: string,
    color: string,
    labelColor: string,
    logo: string,
    logoColor: string,
    labelText: string)

  /** The form's initial values. */
  const DefaultConfig: BadgeConfig := BadgeConfig("badge", "flat", "blue", "grey", "", "white", "")

  /** One `params.append(key, value)`. */
  datatype Param = Param(key: string, value: string)

  /** The position of each parameter key in the order the code appends them. */
  function Rank(key: string): int {
    if key == "style" then 0 else if key == "logo" then 1 else if key == "logoColor" then 2 else 3
  }

  /** `if (cond) params.append(p.key, p.value)` */
  function AppendIf(ps: seq<Param>, cond: bool, p: Param): seq<Param> {
    if cond then ps + [p] else ps
  }

  /** Keys in strictly increasing rank: each key at most once, in the code's order. */
  predicate InOrder(ps: seq<Param>) {
    forall i, j | 0 <= i < j < |ps| :: Rank(ps[i].key) < Rank(ps[j].key)
  }

  /**
   * The query parameters: `style` unless flat, `logo` when set, `logoColor`
   * unless white, `labelColor` unless grey, in that order and nothing else.
   */
  function Params(c: BadgeConfig): (ps: seq<Param>)
    ensures Param("style", c.style) in ps <==> c.style != "flat"
    ensures Param("logo", c.logo) in ps <==> c.logo != ""
    ensures Param("logoColor", c.logoColor) in ps <==> c.logoColor != "white"
    ensures Param("labelColor", c.labelColor) in ps <==> c.labelColor != "grey"
    ensures forall p | p in ps :: p in {Param("style", c.style), Param("logo", c.logo),
                                        Param("logoColor", c.logoColor), Param("labelColor", c.labelColor)}
    ensures InOrder(ps)
  {
    var p0 := AppendIf([], c.style != "flat", Param("style", c.style));
    var p1 := AppendIf(p0, c.logo != "", Param("logo", c.logo));
    var p2 := AppendIf(p1, c.logoColor != "white", Param("logoColor", c.logoColor));
    var p3 := AppendIf(p2, c.labelColor != "grey", Param("labelColor", c.labelColor));
    assert forall p | p in p0 :: Rank(p.key) < 1;
    assert forall p | p in p1 :: Rank(p.key) < 2;
    assert forall p | p in p2 :: Rank(p.key) < 3;
    p3
  }

  /** `params.toString()`: `key=value` pairs, form-encoded, separated by `&`. */
  function Serialize(ps: seq<Param>, formEnc: string -> string): (q: string)
    ensures q == "" <==> ps == []
  {
    if ps == [] then ""
    else
      var pair := formEnc(ps[0].key) + "=" + formEnc(ps[0].value);
      if |ps| == 1 then pair else pair + "&" + Serialize(ps[1..], formEnc)
  }

  /** The path: `/label-text` when a label is set, `/text` otherwise, each part encoded. */
  function Path(c: BadgeConfig, enc: string -> string): string {
    if c.labelText != "" then "/" + enc(c.labelText) + "-" + enc(c.text) else "/" + enc(c.text)
  }

  /** The URL `generateBadgeUrl` returns. */
  function BadgeUrl(c: BadgeConfig, enc: string -> string, formEnc: string -> string): string {
    var query := Serialize(Params(c), formEnc);
    BASE_URL + Path(c, enc) + "-" + c.color + (if query != "" then "?" + query else "")
  }

  /**
   * `generateBadgeUrl`, appending to the URL and the parameter list step by
   * step.
   */
  method GenerateBadgeUrl(config: BadgeConfig, enc: string -> string, formEnc: string -> string) returns (url: string)
    ensures url == BadgeUrl(config, enc, formEnc)
  {
    var badgeUrl := BASE_URL;
    if config.labelText != "" {
      badgeUrl := badgeUrl + ("/" + enc(config.labelText) + "-" + enc(config.text));
    } else {
      badgeUrl := badgeUrl + ("/" + enc(config.text));
    }
    assert badgeUrl == BASE_URL + Path(config, enc);
    badgeUrl := badgeUrl + ("-" + config.color);
    var head := BASE_URL + Path(config, enc) + "-" + config.color;
    assert badgeUrl == head;
    var params: seq<Param> := [];
    if config.style != "flat" {
      params := params + [Param("style", config.style)];
    }
    if config.logo != "" {
      params := params + [Param("logo", config.logo)];
    }
    if config.logoColor != "white" {
      params := params + [Param("logoColor", config.logoColor)];
    }
    if config.labelColor != "grey" {
      params := params + [Param("labelColor", config.labelColor)];
    }
    assert params == Params(config);
    var query := Serialize(params, formEnc);
    if query != "" {
      badgeUrl := badgeUrl + ("?" + query);
    } else {
      assert head + "" == head;
    }
    url := badgeUrl;
  }

  /**
   * The URL is the base, the path and `-color`, then `?` and the query only
   * when some parameter was added.
   */
  lemma UrlShape(c: BadgeConfig, enc: string -> string, formEnc: string -> string)
    ensures Params(c) == [] ==> BadgeUrl(c, enc, formEnc) == BASE_URL + Path(c, enc) + "-" + c.color
    ensures Params(c) != [] ==>
              BadgeUrl(c, enc, formEnc) == BASE_URL + Path(c, enc) + "-" + c.color + "?" + Serialize(Params(c), formEnc)
    ensures BASE_URL <= BadgeUrl(c, enc, formEnc)
    ensures '?' !in BASE_URL + Path(c, enc) + "-" + c.color ==>
              ('?' in BadgeUrl(c, enc, formEnc) <==> Params(c) != [])
  {
    var head := BASE_URL + Path(c, enc) + "-" + c.color;
    var query := Serialize(Params(c), formEnc);
    if query != "" {
      assert head + ("?" + query) == head + "?" + query;
      assert (head + "?" + query)[|head|] == '?';
    } else {
      assert head + "" == head;
    }
    assert BadgeUrl(c, enc, formEnc) == BASE_URL + (Path(c, enc) + "-" + c.color + (if query != "" then "?" + query else ""));
  }

  /** With the form's initial values (and `badge` encoding to itself) the URL is `.../badge/badge-blue`. */
  lemma DefaultUrl(enc: string -> string, formEnc: string -> string)
    requires enc("badge") == "badge"
    ensures BadgeUrl(DefaultConfig, enc, formEnc) == BASE_URL + "/badge-blue"
  {
    assert Params(DefaultConfig) == [];
  }

  /** `![Badge](url)` */
  function Markdown(url: string): (md: string)
    ensures |md| == |url| + 10
    ensures md[..9] == "![Badge](" && md[|md| - 1] == ')'
  {
    "![Badge](" + url + ")"
  }

  /** The URL can be read back out of the Markdown. */
  lemma MarkdownHoldsUrl(url: string)
    ensures Markdown(url)[9..|Markdown(url)| - 1] == url
  {
  }

  /** `badge-${text}.svg` */
  function DownloadName(text: string): (name: string)
    ensures |name| == |text| + 10
    ensures name[..6] == "badge-" && name[|name| - 4..] == ".svg"
  {
    "badge-" + text + ".svg"
  }

  /** The badge text can be read back out of the file name. */
  lemma DownloadNameHoldsText(text: string)
    ensures DownloadName(text)[6..|DownloadName(text)| - 4] == text
  {
  }

  /** The generator's state: the form and the last generated badge. */
  class Generator {
    const enc: string -> string
    const formEnc: string -> string
    var config: BadgeConfig
    var generatedBadge: string
    var badgeMarkdown: string

    constructor (enc: string -> string, formEnc: string -> string)
      ensures this.enc == enc && this.formEnc == formEnc
      ensures config == DefaultConfig && generatedBadge == "" && badgeMarkdown == ""
    {
      this.enc := enc;
      this.formEnc := formEnc;
      config := DefaultConfig;
      generatedBadge := "";
      badgeMarkdown := "";
    }

    method SetConfig(c: BadgeConfig)
      modifies this`config
      ensures config == c
    {
      config := c;
    }

    /**
     * `generateBadge`: stores the URL and its Markdown and returns the pair
     * passed to `onBadgeGenerated` when that callback is present.
     */
    method GenerateBadge(hasCallback: bool) returns (generated: Option<(string, string)>)
      modifies this`generatedBadge, this`badgeMarkdown
      ensures generatedBadge == BadgeUrl(config, enc, formEnc)
      ensures badgeMarkdown == Markdown(generatedBadge)
      ensures generated == if hasCallback then Some((generatedBadge, badgeMarkdown)) else None
    {
      var url := GenerateBadgeUrl(config, enc, formEnc);
      var markdown := "![Badge](" + url + ")";
      generatedBadge := url;
      badgeMarkdown := markdown;
      generated := if hasCallback then Some((url, markdown)) else None;
    }

    /**
     * `downloadBadge`: nothing before a badge was generated or when the fetch
     * fails; otherwise the name the file is saved under.
     */
    method DownloadBadge(fetchOk: bool) returns (fileName: Option<string>)
      ensures generatedBadge == "" || !fetchOk ==> fileName.None?
      ensures generatedBadge != "" && fetchOk ==> fileName == Some(DownloadName(config.text))
    {
      if generatedBadge == "" {
        return None;
      }
      if !fetchOk {
        return None;
      }
      fileName := Some("badge-" + config.text + ".svg");
    }
  }
}
