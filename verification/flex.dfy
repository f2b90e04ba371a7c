/**
 * The reply card: the flex message BuildPreviewFlex makes from a link
 * preview, with the button and safeText helpers. Only the fields the
 * handler sets are modelled; an unset string field of the SDK's structs is
 * "".
 */
module Flex {
  import opened Wrappers
  import Text

  /** What a preview fetch returns for a link: title, image URL and canonical URL. */
  datatype Preview = Preview(title: string, image: string, url: string)

  datatype ButtonStyle = Primary | Secondary

  /** An action; caption is the SDK's Label (label is a reserved word here). */
  datatype Action =
    | UriAction(caption: string, uri: string)
    | MessageAction(caption: string, text: string)

  datatype FlexImage = FlexImage(url: string, size: string, aspectRatio: string, aspectMode: string, action: Action)

  datatype FlexComponent =
    | FlexText(text: string, weight: string, size: string, color: string, wrap: bool)
    | FlexButton(style: ButtonStyle, color: string, action: Action)

  datatype FlexBox = FlexBox(layout: string, spacing: string, contents: seq<FlexComponent>)

  datatype FlexBubble = FlexBubble(hero: Option<FlexImage>, body: FlexBox, footer: FlexBox)

  datatype FlexMessage = FlexMessage(altText: string, contents: FlexBubble)

  /** The label of the hero image's link action ("open link"). */
  const OpenLinkLabel := "เปิดลิงก์"

  /** The title shown when the preview has none ("link from the family"). */
  const FallbackTitle := "🔗 ลิงก์จากครอบครัว"

  /** The notification text of every card ("a new restaurant, come have a look!"). */
  const CardAltText := "มีร้านใหม่มาดูหน่อย!"

  /** The three vote buttons, left to right: label, colour, text sent, style. */
  const RejectVote := "ไม่ผ่าน"
  const MehVote := "ก็โอเค"
  const GoVote := "ไป!!"

  /**
   * safeText: the fallback when the text is empty once the white space
   * around it is trimmed, otherwise the text unchanged.
   */
  function SafeText(text: string, fallback: string): (r: string)
    ensures Text.AllSpace(text) ==> r == fallback
    ensures !Text.AllSpace(text) ==> r == text
  {
    Text.TrimSpaceEmptyIff(text);
    if Text.TrimSpace(text) == "" then fallback else text
  }

  /** button: a button of the given style and colour, captioned caption, that sends text as a chat message when tapped. */
  function Button(caption: string, color: string, text: string, style: ButtonStyle): FlexComponent
  {
    FlexButton(style, color, MessageAction(caption, text))
  }

  /** BuildPreviewFlex: the card for one preview. */
  function BuildPreviewFlex(p: Preview): (m: FlexMessage)
    ensures m.altText == CardAltText
    ensures m.contents.hero.Some? <==> p.image != ""
    ensures m.contents.hero.Some? ==>
      m.contents.hero.value.url == p.image && m.contents.hero.value.action == UriAction(OpenLinkLabel, p.url)
    ensures |m.contents.body.contents| == 2
    ensures m.contents.body.contents[0].FlexText? && m.contents.body.contents[1].FlexText?
    ensures m.contents.body.contents[0].text == if Text.AllSpace(p.title) then FallbackTitle else p.title
    ensures m.contents.body.contents[1].text == p.url
    ensures |m.contents.footer.contents| == 3
    ensures forall k :: 0 <= k < 3 ==>
      m.contents.footer.contents[k].FlexButton? && m.contents.footer.contents[k].action.MessageAction?
    ensures forall k :: 0 <= k < 3 ==> (m.contents.footer.contents[k].style == Primary <==> k == 2)
    ensures [m.contents.footer.contents[0].action.text, m.contents.footer.contents[1].action.text,
             m.contents.footer.contents[2].action.text] == [RejectVote, MehVote, GoVote]
  {
    var hero :=
      if p.image != "" then
        Some(FlexImage(p.image, "full", "20:13", "cover", UriAction(OpenLinkLabel, p.url)))
      else None;
    var body := [
      FlexText(SafeText(p.title, FallbackTitle), "bold", "lg", "", true),
      FlexText(p.url, "", "sm", "#AAAAAA", true)
    ];
    var footer := [
      Button("❌ " + RejectVote, "#FF3B30", RejectVote, Secondary),
      Button("😐 " + MehVote, "#FF9500", MehVote, Secondary),
      Button("🔥 " + GoVote, "#34C759", GoVote, Primary)
    ];
    FlexMessage(CardAltText, FlexBubble(hero, FlexBox("vertical", "", body), FlexBox("horizontal", "md", footer)))
  }

  /** The fallback title has a character that is not white space. */
  lemma FallbackTitleNotBlank()
    ensures !Text.AllSpace(FallbackTitle)
  {
    assert !Text.IsSpace(FallbackTitle[0]);
  }

  /** A card's title line is never blank: a blank title is replaced by the fallback. */
  lemma CardTitleNeverBlank(p: Preview)
    ensures !Text.AllSpace(BuildPreviewFlex(p).contents.body.contents[0].text)
  {
    FallbackTitleNotBlank();
  }

  /** A title that is already safe is kept: safeText with a non-blank fallback is idempotent. */
  lemma SafeTextIdempotent(text: string, fallback: string)
    requires !Text.AllSpace(fallback)
    ensures SafeText(SafeText(text, fallback), fallback) == SafeText(text, fallback)
  {
  }

  /** Each vote button's label is an emoji, a space and then the very text it sends. */
  lemma VoteButtonsSendTheirLabel(p: Preview)
    ensures forall k :: 0 <= k < 3 ==>
      var a := BuildPreviewFlex(p).contents.footer.contents[k].action;
      a.MessageAction? && |a.caption| >= |a.text| + 2 &&
      a.caption[|a.caption| - |a.text|..] == a.text && a.caption[|a.caption| - |a.text| - 1] == ' '
  {
    var f := BuildPreviewFlex(p).contents.footer.contents;
    assert ("❌ " + RejectVote)[|"❌ "|..] == RejectVote;
    assert ("😐 " + MehVote)[|"😐 "|..] == MehVote;
    assert ("🔥 " + GoVote)[|"🔥 "|..] == GoVote;
  }
}
