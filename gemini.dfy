/** The request and response helpers of services/gemini.ts: stripping the
    data-URL header from an upload, the prompts sent to the hosted model, the
    two-line makeover instruction, and reading the generated image or the
    analysis text back out of a reply. The calls to the hosted model are not
    modelled; what they send is returned as a value and what they answer is
    taken as an input. */
module Gemini {
  import opened Wrappers
  import opened Types

  // ---------------------------------------------------------------------
  // Data URLs
  // ---------------------------------------------------------------------

  /** The first position of `c` in `s`, if any. */
  function IndexOf(s: string, c: char): (r: Option<nat>)
    ensures r.None? <==> c !in s
    ensures r.Some? ==> r.value < |s| && s[r.value] == c && c !in s[..r.value]
  {
    if s == [] then None
    else if s[0] == c then Some(0)
    else match IndexOf(s[1..], c)
      case None => None
      case Some(i) =>
        assert s[..i + 1] == [s[0]] + s[1..][..i];
        Some(i + 1)
  }

  /** `dataUrl.split(',')[1]`: the text between the first comma and the next
      comma or the end. Without any comma the element does not exist and
      JavaScript yields `undefined`, here `None`. */
  function CleanBase64(dataUrl: string): (r: Option<string>)
    ensures r.None? <==> ',' !in dataUrl
    ensures r.Some? ==> ',' !in r.value
    ensures r.Some? ==>
      var i := IndexOf(dataUrl, ',').value;
      && i + 1 + |r.value| <= |dataUrl|
      && dataUrl[i + 1..i + 1 + |r.value|] == r.value
      && (i + 1 + |r.value| == |dataUrl| || dataUrl[i + 1 + |r.value|] == ',')
  {
    match IndexOf(dataUrl, ',')
    case None => None
    case Some(i) =>
      var rest := dataUrl[i + 1..];
      match IndexOf(rest, ',')
      case None => Some(rest)
      case Some(j) => Some(rest[..j])
  }

  /** A data URL "header,payload..." yields its payload, whatever follows the
      next comma. */
  lemma CleanBase64OfSplit(header: string, payload: string, tail: string)
    requires ',' !in header && ',' !in payload
    requires tail == [] || tail[0] == ','
    ensures CleanBase64(header + [','] + payload + tail) == Some(payload)
  {
    var s := header + [','] + payload + tail;
    IndexOfFirst(header, [','] + payload + tail, ',');
    assert s == header + ([','] + payload + tail);
    assert s[|header| + 1..] == payload + tail;
    if tail == [] {
      assert payload + tail == payload;
    } else {
      IndexOfFirst(payload, tail, ',');
      assert (payload + tail)[..|payload|] == payload;
    }
  }

  /** Searching `a + b` finds the first `c` at the head of `b` when `a` has none. */
  lemma {:induction false} IndexOfFirst(a: string, b: string, c: char)
    requires c !in a && b != [] && b[0] == c
    ensures IndexOf(a + b, c) == Some(|a|)
  {
    if a != [] {
      assert (a + b)[1..] == a[1..] + b;
      IndexOfFirst(a[1..], b, c);
    }
  }

  const PngDataUrlHeader := "data:image/png;base64"

  /** How a template literal renders an optional string: `undefined` when absent. */
  function JsText(x: Option<string>): string
  {
    match x
    case Some(s) => s
    case None => "undefined"
  }

  /** The data URL built for a generated PNG image. */
  function PngDataUrl(data: string): string
  {
    PngDataUrlHeader + [','] + data
  }

  /** A generated image URL, cleaned again, gives back its base64 data. */
  lemma CleanBase64OfPngDataUrl(data: string)
    requires ',' !in data
    ensures CleanBase64(PngDataUrl(data)) == Some(data)
  {
    assert PngDataUrl(data) == PngDataUrlHeader + [','] + data + [];
    CleanBase64OfSplit(PngDataUrlHeader, data, []);
  }

  // ---------------------------------------------------------------------
  // Requests
  // ---------------------------------------------------------------------

  /** One part of a request: an inline image or a text. An absent `data` is
      an image whose cleaned payload was `undefined`. */
  datatype RequestPart = InlinePart(mimeType: string, data: Option<string>) | TextPart(text: string)

  const JpegMime := "image/jpeg"

  const AnalysisPromptCN := "分析这些用户的照片（正面、左侧、右侧）。识别他们的脸型和肤色。根据美学原则，推荐 3 种适合的发型和 3 种适合的眼镜款式。请提供详细的理由。请以 JSON 格式返回结果。注意：JSON 的**键名(Keys)**必须严格保持英文（如 faceShape, skinTone, recommendedHairstyles, name, description, reason, recommendedGlasses, style 等），但所有**值(Values)**的内容必须严格使用简体中文。"
  const AnalysisPromptEN := "Analyze these user photos (front, left, right). Identify their face shape and skin tone. Based on aesthetic principles, recommend 3 best hairstyles and 3 best glasses styles. Provide detailed reasoning. Return the result in JSON format. Ensure all string **values** are in English, but keep the keys as defined in the schema."

  function AnalysisPrompt(lang: Language): string
  {
    if lang == CN then AnalysisPromptCN else AnalysisPromptEN
  }

  /** The parts of the analysis request: the cleaned front, left and right
      images, in that order, then the prompt in the chosen language. */
  function AnalysisRequest(front: string, left: string, right: string, lang: Language): (r: seq<RequestPart>)
    ensures |r| == 4
    ensures r[0] == InlinePart(JpegMime, CleanBase64(front))
    ensures r[1] == InlinePart(JpegMime, CleanBase64(left))
    ensures r[2] == InlinePart(JpegMime, CleanBase64(right))
    ensures r[3] == TextPart(AnalysisPrompt(lang))
  {
    [ InlinePart(JpegMime, CleanBase64(front)),
      InlinePart(JpegMime, CleanBase64(left)),
      InlinePart(JpegMime, CleanBase64(right)),
      TextPart(AnalysisPrompt(lang)) ]
  }

  /** Uploads of the form "header,payload" send exactly their payloads. */
  lemma AnalysisRequestCarriesPayloads(
    hf: string, pf: string, hl: string, pl: string, hr: string, pr: string, lang: Language)
    requires ',' !in hf + pf + hl + pl + hr + pr
    ensures var r := AnalysisRequest(hf + [','] + pf, hl + [','] + pl, hr + [','] + pr, lang);
      r[0].data == Some(pf) && r[1].data == Some(pl) && r[2].data == Some(pr)
  {
    assert forall c :: c in hf + pf + hl + pl + hr + pr <==>
      c in hf || c in pf || c in hl || c in pl || c in hr || c in pr;
    assert hf + [','] + pf == hf + [','] + pf + [];
    assert hl + [','] + pl == hl + [','] + pl + [];
    assert hr + [','] + pr == hr + [','] + pr + [];
    CleanBase64OfSplit(hf, pf, []);
    CleanBase64OfSplit(hl, pl, []);
    CleanBase64OfSplit(hr, pr, []);
  }

  // The fixed wording of the two instruction lines.
  const HairChangeCN := "发型必须改为："
  const HairChangeEN := "Hairstyle must be changed to: "
  const HairKeepCN := "保持原有发型不变。"
  const HairKeepEN := "Keep the original hairstyle unchanged."
  const GlassesWearCN := "佩戴眼镜："
  const GlassesWearEN := "Wear glasses: "
  const GlassesKeepCN := "如果原图中没有眼镜，则不戴眼镜；如果原图有眼镜，保持原样。"
  const GlassesKeepEN := "If there are no glasses in the original image, do not add them; otherwise keep original."

  const FirstItem := "\n1. "
  const SecondItem := "\n2. "
  const OpenParen := " ("
  const CloseCN := ")。"
  const CloseEN := ")."

  /** "title (description)" closed by the language's full stop. */
  function Described(title: string, description: string, lang: Language): string
  {
    title + OpenParen + description + (if lang == CN then CloseCN else CloseEN)
  }

  /** The text of instruction 1: change to the selected hairstyle, or keep it. */
  function HairItem(hair: Option<Hairstyle>, lang: Language): string
  {
    match hair
    case Some(h) => (if lang == CN then HairChangeCN else HairChangeEN) + Described(h.name, h.description, lang)
    case None => if lang == CN then HairKeepCN else HairKeepEN
  }

  /** The text of instruction 2: wear the selected glasses, or keep the original. */
  function GlassesItem(glasses: Option<Glasses>, lang: Language): string
  {
    match glasses
    case Some(g) => (if lang == CN then GlassesWearCN else GlassesWearEN) + Described(g.style, g.description, lang)
    case None => if lang == CN then GlassesKeepCN else GlassesKeepEN
  }

  /** Instruction 1: "1." on a new line, then its text. */
  function HairLine(hair: Option<Hairstyle>, lang: Language): string
  {
    FirstItem + HairItem(hair, lang)
  }

  /** Instruction 2: "2." on a new line, then its text. */
  function GlassesLine(glasses: Option<Glasses>, lang: Language): string
  {
    SecondItem + GlassesItem(glasses, lang)
  }

  /** The instruction block: instruction 1 for the hair, then instruction 2
      for the glasses. */
  function MakeoverInstructions(hair: Option<Hairstyle>, glasses: Option<Glasses>, lang: Language): string
  {
    HairLine(hair, lang) + GlassesLine(glasses, lang)
  }

  /** Builds the instruction block by appending to an initially empty string,
      one branch for the hairstyle and one for the glasses. */
  method BuildMakeoverInstructions(hair: Option<Hairstyle>, glasses: Option<Glasses>, lang: Language)
    returns (instructions: string)
    ensures instructions == MakeoverInstructions(hair, glasses, lang)
  {
    instructions := "";
    if hair.Some? {
      var lead := if lang == CN then HairChangeCN else HairChangeEN;
      var described := Described(hair.value.name, hair.value.description, lang);
      assert FirstItem + (lead + described) == FirstItem + lead + described;
      instructions := instructions + (FirstItem + lead + described);
    } else {
      instructions := instructions + (FirstItem + (if lang == CN then HairKeepCN else HairKeepEN));
    }
    assert "" + HairLine(hair, lang) == HairLine(hair, lang);
    assert instructions == HairLine(hair, lang);
    if glasses.Some? {
      var lead := if lang == CN then GlassesWearCN else GlassesWearEN;
      var described := Described(glasses.value.style, glasses.value.description, lang);
      assert SecondItem + (lead + described) == SecondItem + lead + described;
      assert GlassesLine(glasses, lang) == SecondItem + lead + described;
      instructions := instructions + (SecondItem + lead + described);
    } else {
      instructions := instructions + (SecondItem + (if lang == CN then GlassesKeepCN else GlassesKeepEN));
    }
    assert instructions == HairLine(hair, lang) + GlassesLine(glasses, lang);
  }

  /** `t` appears in `s` at position `i`. */
  predicate OccursAt(t: string, s: string, i: nat)
  {
    i + |t| <= |s| && s[i..i + |t|] == t
  }

  /** `t` appears somewhere in `s`. */
  ghost predicate Occurs(t: string, s: string)
  {
    exists i: nat :: OccursAt(t, s, i)
  }

  lemma OccursAtStart(t: string)
    ensures OccursAt(t, t, 0)
  {
    assert t[0..|t|] == t;
  }

  lemma OccursBefore(t: string, s: string, i: nat, b: string)
    requires OccursAt(t, s, i)
    ensures OccursAt(t, s + b, i)
  {
    assert (s + b)[i..i + |t|] == s[i..i + |t|];
  }

  lemma OccursAfter(a: string, t: string, s: string, i: nat)
    requires OccursAt(t, s, i)
    ensures OccursAt(t, a + s, |a| + i)
  {
    assert (a + s)[|a| + i..|a| + i + |t|] == s[i..i + |t|];
  }

  lemma OccursBetween(a: string, t: string, b: string)
    ensures OccursAt(t, a + t + b, |a|)
  {
    assert (a + t + b)[|a|..|a| + |t|] == t;
  }

  /** The title and the description both appear in "title (description)". */
  lemma DescribedMentions(title: string, description: string, lang: Language)
    ensures OccursAt(title, Described(title, description, lang), 0)
    ensures OccursAt(description, Described(title, description, lang), |title| + |OpenParen|)
  {
    var close := if lang == CN then CloseCN else CloseEN;
    OccursAtStart(title);
    OccursBefore(title, title, 0, OpenParen);
    OccursBefore(title, title + OpenParen, 0, description);
    OccursBefore(title, title + OpenParen + description, 0, close);
    OccursAtStart(description);
    OccursAfter(title + OpenParen, description, description, 0);
    OccursBefore(description, title + OpenParen + description, |title + OpenParen|, close);
  }

  /** A selected hairstyle's name and description both appear in instruction 1,
      and hence in the instruction block. */
  lemma HairInstructionNamesSelection(h: Hairstyle, glasses: Option<Glasses>, lang: Language)
    ensures Occurs(h.name, HairLine(Some(h), lang))
    ensures Occurs(h.description, HairLine(Some(h), lang))
    ensures Occurs(h.name, MakeoverInstructions(Some(h), glasses, lang))
    ensures Occurs(h.description, MakeoverInstructions(Some(h), glasses, lang))
  {
    var lead := if lang == CN then HairChangeCN else HairChangeEN;
    var d := Described(h.name, h.description, lang);
    var rest := GlassesLine(glasses, lang);
    var i, j := |FirstItem + lead|, |FirstItem + lead| + |h.name| + |OpenParen|;
    DescribedMentions(h.name, h.description, lang);
    OccursAfter(lead, h.name, d, 0);
    OccursAfter(FirstItem, h.name, lead + d, |lead|);
    OccursBefore(h.name, FirstItem + (lead + d), i, rest);
    OccursAfter(lead, h.description, d, |h.name| + |OpenParen|);
    OccursAfter(FirstItem, h.description, lead + d, |lead| + |h.name| + |OpenParen|);
    OccursBefore(h.description, FirstItem + (lead + d), j, rest);
  }

  /** Selected glasses' style and description both appear in instruction 2,
      and hence in the instruction block. */
  lemma GlassesInstructionNamesSelection(hair: Option<Hairstyle>, g: Glasses, lang: Language)
    ensures Occurs(g.style, GlassesLine(Some(g), lang))
    ensures Occurs(g.description, GlassesLine(Some(g), lang))
    ensures Occurs(g.style, MakeoverInstructions(hair, Some(g), lang))
    ensures Occurs(g.description, MakeoverInstructions(hair, Some(g), lang))
  {
    var lead := if lang == CN then GlassesWearCN else GlassesWearEN;
    var d := Described(g.style, g.description, lang);
    var before := HairLine(hair, lang);
    var i, j := |SecondItem + lead|, |SecondItem + lead| + |g.style| + |OpenParen|;
    DescribedMentions(g.style, g.description, lang);
    OccursAfter(lead, g.style, d, 0);
    OccursAfter(SecondItem, g.style, lead + d, |lead|);
    OccursAfter(before, g.style, SecondItem + (lead + d), i);
    OccursAfter(lead, g.description, d, |g.style| + |OpenParen|);
    OccursAfter(SecondItem, g.description, lead + d, |lead| + |g.style| + |OpenParen|);
    OccursAfter(before, g.description, SecondItem + (lead + d), j);
  }

  /** The fifth character (just after "\n1. ") tells a hairstyle change from
      keeping the original, in either language. */
  lemma HairItemHead(hair: Option<Hairstyle>, lang: Language)
    ensures |HairItem(hair, lang)| > 0
    ensures HairItem(hair, lang)[0] ==
      match (hair.Some?, lang)
      case (true, EN) => 'H'
      case (true, CN) => '发'
      case (false, EN) => 'K'
      case (false, CN) => '保'
  {
    if hair.Some? {
      var lead := if lang == CN then HairChangeCN else HairChangeEN;
      assert HairItem(hair, lang) == lead + Described(hair.value.name, hair.value.description, lang);
      assert HairItem(hair, lang)[0] == lead[0];
    }
  }

  /** With glasses selected, instruction 2 ends in " (description)" and the
      language's full stop. */
  lemma GlassesItemEndsDescribed(g: Glasses, lang: Language)
    ensures var item := GlassesItem(Some(g), lang);
      var tail := OpenParen + g.description + (if lang == CN then CloseCN else CloseEN);
      |tail| <= |item| && item[|item| - |tail|..] == tail
  {
    var head := (if lang == CN then GlassesWearCN else GlassesWearEN) + g.style;
    var tail := OpenParen + g.description + (if lang == CN then CloseCN else CloseEN);
    assert GlassesItem(Some(g), lang) == head + tail;
    assert (head + tail)[|head|..] == tail;
  }

  /** The character before the closing full stop of instruction 2 tells
      wearing the selected glasses (the ")" of "(description)") from keeping
      the original. */
  lemma GlassesItemEnd(glasses: Option<Glasses>, lang: Language)
    ensures |GlassesItem(glasses, lang)| > 1
    ensures var item := GlassesItem(glasses, lang);
      item[|item| - 2] ==
        match (glasses.Some?, lang)
        case (true, _) => ')'
        case (false, EN) => 'l'
        case (false, CN) => '样'
  {
  }

  /** The language alone picks the wording: the same selection never gives
      the same instructions in English and in Chinese. */
  lemma InstructionsDependOnLanguage(hair: Option<Hairstyle>, glasses: Option<Glasses>)
    ensures MakeoverInstructions(hair, glasses, EN) != MakeoverInstructions(hair, glasses, CN)
  {
    HairItemHead(hair, EN);
    HairItemHead(hair, CN);
    assert MakeoverInstructions(hair, glasses, EN)[4] == HairItem(hair, EN)[0];
    assert MakeoverInstructions(hair, glasses, CN)[4] == HairItem(hair, CN)[0];
  }

  /** Instruction 1 asks for a hairstyle change exactly when one is selected. */
  lemma InstructionsRevealHairSelection(h: Hairstyle, g1: Option<Glasses>, g2: Option<Glasses>, lang: Language)
    ensures MakeoverInstructions(Some(h), g1, lang) != MakeoverInstructions(None, g2, lang)
  {
    HairItemHead(Some(h), lang);
    HairItemHead(None, lang);
    assert MakeoverInstructions(Some(h), g1, lang)[4] == HairItem(Some(h), lang)[0];
    assert MakeoverInstructions(None, g2, lang)[4] == HairItem(None, lang)[0];
  }

  /** Instruction 2 asks to wear glasses exactly when a pair is selected. */
  lemma InstructionsRevealGlassesSelection(hair: Option<Hairstyle>, g: Glasses, lang: Language)
    ensures MakeoverInstructions(hair, Some(g), lang) != MakeoverInstructions(hair, None, lang)
  {
    var worn, kept := MakeoverInstructions(hair, Some(g), lang), MakeoverInstructions(hair, None, lang);
    GlassesItemEnd(Some(g), lang);
    GlassesItemEnd(None, lang);
    assert worn[|worn| - 2] == GlassesItem(Some(g), lang)[|GlassesItem(Some(g), lang)| - 2];
    assert kept[|kept| - 2] == GlassesItem(None, lang)[|GlassesItem(None, lang)| - 2];
  }

  const PromptIndent := "\n       "

  const PromptOpeningCN := "基于这张人像照片，生成一张高写实、专业摄影级别的照片。人物必须保持是同一个人（面部特征不变），但根据以下指令调整造型："
  const PromptOpeningEN := "Based on this portrait photo, generate a hyper-realistic, professional photography quality image. The person must remain the same identity (facial features unchanged), but adjust the look according to the following instructions:"
  const PromptClosingCN := "保持自然的光线和肤色质感。只改变上述指定的特征，其他保持原样。"
  const PromptClosingEN := "Maintain natural lighting and skin texture. Only change the specified features, keep others as original as possible."

  function PromptOpening(lang: Language): string
  {
    if lang == CN then PromptOpeningCN else PromptOpeningEN
  }

  function PromptClosing(lang: Language): string
  {
    if lang == CN then PromptClosingCN else PromptClosingEN
  }

  /** The generation prompt: a fixed opening, the instruction block and a
      fixed closing, each on its own indented line. */
  function GenerationPrompt(instructions: string, lang: Language): string
  {
    PromptOpening(lang) + PromptIndent + instructions + PromptIndent + PromptClosing(lang)
  }

  /** The parts of the generation request: the cleaned front image, then the
      prompt built around the makeover instructions. */
  function GenerationRequest(front: string, hair: Option<Hairstyle>, glasses: Option<Glasses>, lang: Language)
    : (r: seq<RequestPart>)
  {
    [ InlinePart(JpegMime, CleanBase64(front)),
      TextPart(GenerationPrompt(MakeoverInstructions(hair, glasses, lang), lang)) ]
  }

  /** The generation request sends the front image's payload first and then
      a prompt that carries the makeover instructions verbatim. */
  lemma GenerationRequestCarriesInstructions(
    front: string, hair: Option<Hairstyle>, glasses: Option<Glasses>, lang: Language)
    ensures var r := GenerationRequest(front, hair, glasses, lang);
      && |r| == 2 && r[0] == InlinePart(JpegMime, CleanBase64(front)) && r[1].TextPart?
      && Occurs(MakeoverInstructions(hair, glasses, lang), r[1].text)
  {
    var instructions := MakeoverInstructions(hair, glasses, lang);
    var head := PromptOpening(lang) + PromptIndent;
    OccursBetween(head, instructions, PromptIndent);
    OccursBefore(instructions, head + instructions + PromptIndent, |head|, PromptClosing(lang));
  }

  // ---------------------------------------------------------------------
  // Responses
  // ---------------------------------------------------------------------

  /** The response shapes read back from the generation call; every level
      is optional, as in the client library's typings. */
  datatype Blob = Blob(mimeType: Option<string>, data: Option<string>)
  datatype Part = Part(inlineData: Option<Blob>, text: Option<string>)
  datatype Content = Content(parts: Option<seq<Part>>)
  datatype Candidate = Candidate(content: Option<Content>)
  datatype GenerateContentResponse = GenerateContentResponse(candidates: Option<seq<Candidate>>)

  /** Some level of `candidates?.[0]?.content?.parts` is absent. */
  predicate PartsMissing(response: GenerateContentResponse)
  {
    || response.candidates.None?
    || response.candidates.value == []
    || response.candidates.value[0].content.None?
    || response.candidates.value[0].content.value.parts.None?
  }

  /** `response.candidates?.[0]?.content?.parts || []`: the first candidate's
      parts, or no parts when any level on the way is absent. */
  function ResponseParts(response: GenerateContentResponse): (r: seq<Part>)
    ensures PartsMissing(response) ==> r == []
    ensures !PartsMissing(response) ==> r == response.candidates.value[0].content.value.parts.value
  {
    match response.candidates
    case None => []
    case Some(cs) =>
      if cs == [] then []
      else match cs[0].content
        case None => []
        case Some(c) => match c.parts
          case None => []
          case Some(ps) => ps
  }

  const NoImageGenerated := "No image generated"

  /** A reply without candidates, content or parts yields no image. */
  lemma MissingPartsYieldNoImage(response: GenerateContentResponse)
    requires PartsMissing(response)
    ensures ImageOf(ResponseParts(response)) == Failure(NoImageGenerated)
  {
  }

  /** The index of the first part that carries inline data. */
  function FirstInlinePart(parts: seq<Part>): (r: Option<nat>)
    ensures r.None? <==> forall k | 0 <= k < |parts| :: parts[k].inlineData.None?
    ensures r.Some? ==> r.value < |parts| && parts[r.value].inlineData.Some?
    ensures r.Some? ==> forall k | 0 <= k < r.value :: parts[k].inlineData.None?
  {
    if parts == [] then None
    else if parts[0].inlineData.Some? then Some(0)
    else match FirstInlinePart(parts[1..])
      case None => None
      case Some(i) => Some(i + 1)
  }

  /** What extraction makes of a list of parts: the PNG data URL of the first
      inline part, or the "No image generated" error. */
  function ImageOf(parts: seq<Part>): (r: Result<string>)
    ensures r.Failure? <==> forall k | 0 <= k < |parts| :: parts[k].inlineData.None?
    ensures r.Failure? ==> r.error == NoImageGenerated
  {
    match FirstInlinePart(parts)
    case None => Failure(NoImageGenerated)
    case Some(i) => Success(PngDataUrl(JsText(parts[i].inlineData.value.data)))
  }

  /** Parts after the first inline one are never looked at. */
  lemma ImageOfIgnoresLaterParts(parts: seq<Part>, later: seq<Part>)
    requires exists k | 0 <= k < |parts| :: parts[k].inlineData.Some?
    ensures ImageOf(parts + later) == ImageOf(parts)
  {
    var i := FirstInlinePart(parts).value;
    assert forall k | 0 <= k < |parts| :: (parts + later)[k] == parts[k];
    assert FirstInlinePart(parts + later) == Some(i);
  }

  /** The image is the one of the first inline part, after any number of
      parts without inline data. */
  lemma ImageOfSkipsTextParts(prefix: seq<Part>, p: Part, later: seq<Part>)
    requires forall k | 0 <= k < |prefix| :: prefix[k].inlineData.None?
    requires p.inlineData.Some?
    ensures ImageOf(prefix + [p] + later) == Success(PngDataUrl(JsText(p.inlineData.value.data)))
  {
    var s := prefix + [p] + later;
    assert forall k | 0 <= k < |prefix| :: s[k] == prefix[k];
    assert s[|prefix|] == p;
    assert FirstInlinePart(s) == Some(|prefix|);
  }

  /** The loop over the response parts with its early return. */
  method ExtractImage(response: GenerateContentResponse) returns (r: Result<string>)
    ensures r == ImageOf(ResponseParts(response))
  {
    var parts := ResponseParts(response);
    for i := 0 to |parts|
      invariant forall k | 0 <= k < i :: parts[k].inlineData.None?
    {
      if parts[i].inlineData.Some? {
        return Success(PngDataUrl(JsText(parts[i].inlineData.value.data)));
      }
    }
    return Failure(NoImageGenerated);
  }

  /** `generateMakeoverImage`: build the instructions, send the front image
      and the prompt, and read the image out of the reply; a rejected call
      passes its error on. */
  method GenerateMakeoverImage(
    front: string, hair: Option<Hairstyle>, glasses: Option<Glasses>, lang: Language,
    reply: Reply<GenerateContentResponse>)
    returns (request: seq<RequestPart>, result: Result<string>)
    ensures request == GenerationRequest(front, hair, glasses, lang)
    ensures reply.Rejected? ==> result == Failure(reply.error)
    ensures reply.Answered? ==> result == ImageOf(ResponseParts(reply.value))
  {
    var instructions := BuildMakeoverInstructions(hair, glasses, lang);
    var prompt := GenerationPrompt(instructions, lang);
    request := [InlinePart(JpegMime, CleanBase64(front)), TextPart(prompt)];
    match reply
    case Rejected(e) =>
      result := Failure(e);
    case Answered(response) =>
      result := ExtractImage(response);
  }

  /** What the analysis call answered: its `text` (absent or present) and
      what `JSON.parse` made of it (`None` when parsing throws). */
  datatype AnalysisAnswer = AnalysisAnswer(text: Option<string>, parsed: Option<AnalysisResult>)

  const AnalysisFailed := "Failed to analyze images"
  const MalformedAnalysis := "Malformed analysis JSON"

  /** The `!response.text` check: absent or empty text fails. */
  function AnalysisText(text: Option<string>): (r: Result<string>)
    ensures r.Success? <==> text.Some? && text.value != ""
    ensures r.Success? ==> r.value == text.value
    ensures r.Failure? ==> r.error == AnalysisFailed
  {
    if text.None? || text.value == "" then Failure(AnalysisFailed) else Success(text.value)
  }

  /** The result of `analyzeUserProfile` for a given reply. */
  function AnalysisOutcome(reply: Reply<AnalysisAnswer>): (r: Result<AnalysisResult>)
    ensures r.Success? <==>
      reply.Answered? && AnalysisText(reply.value.text).Success? && reply.value.parsed.Some?
    ensures r.Success? ==> r.value == reply.value.parsed.value
    ensures reply.Rejected? ==> r.error == reply.error
    ensures reply.Answered? && AnalysisText(reply.value.text).Failure? ==> r.error == AnalysisFailed
  {
    match reply
    case Rejected(e) => Failure(e)
    case Answered(answer) =>
      match AnalysisText(answer.text)
      case Failure(e) => Failure(e)
      case Success(_) =>
        match answer.parsed
        case None => Failure(MalformedAnalysis)
        case Some(a) => Success(a)
  }
}
