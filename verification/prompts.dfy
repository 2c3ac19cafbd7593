/**
 * Prompt construction for the AI features (package ai): the language-code
 * table and the three system prompts, each a fixed template whose %s verbs
 * are filled by fmt.Sprintf.
 */
module Prompts {

  /**
   * A format string split at its verbs: literal text, or one %s verb. The
   * templates contain no other verb and no literal percent sign.
   */
  datatype Piece = Text(s: string) | Verb

  /** The number of %s verbs in a format. */
  function VerbCount(f: seq<Piece>): (n: nat)
    ensures n <= |f|
  {
    if f == [] then 0 else (if f[0].Verb? then 1 else 0) + VerbCount(f[1..])
  }

  /** The total length of a format's literal text. */
  function TextLength(f: seq<Piece>): nat {
    if f == [] then 0 else (if f[0].Text? then |f[0].s| else 0) + TextLength(f[1..])
  }

  /** The total length of the arguments. */
  function ArgsLength(args: seq<string>): nat {
    if args == [] then 0 else |args[0]| + ArgsLength(args[1..])
  }

  /** fmt's rendering of surplus arguments: ", string=<arg>" after the first. */
  function ExtraArgs(args: seq<string>): string
    decreases |args|
  {
    if args == [] then ""
    else (if |args| == 1 then "" else ExtraArgs(args[..|args| - 1]) + ", ") + "string=" + args[|args| - 1]
  }

  /**
   * fmt.Sprintf restricted to %s verbs over string arguments: each verb takes
   * the next argument; a verb with no argument left prints %!s(MISSING); any
   * arguments left at the end are listed after %!(EXTRA.
   */
  function Sprintf(f: seq<Piece>, args: seq<string>): (r: string)
    ensures VerbCount(f) == |args| ==> |r| == TextLength(f) + ArgsLength(args)
    decreases |f|
  {
    if f == [] then (if args == [] then "" else "%!(EXTRA " + ExtraArgs(args) + ")")
    else match f[0]
      case Text(s) => s + Sprintf(f[1..], args)
      case Verb =>
        if args == [] then "%!s(MISSING)" + Sprintf(f[1..], [])
        else args[0] + Sprintf(f[1..], args[1..])
  }

  /** Literal text followed by a verb, then the rest of a format. */
  function Slot(s: string, rest: seq<Piece>): seq<Piece> {
    [Text(s), Verb] + rest
  }

  /** Filling a slot: its text, the first argument, then the rest of the format filled with the others. */
  lemma SprintfSlot(s: string, rest: seq<Piece>, args: seq<string>)
    requires |args| > 0
    ensures Sprintf(Slot(s, rest), args) == s + (args[0] + Sprintf(rest, args[1..]))
  {
    var f := Slot(s, rest);
    assert f[1..] == [Verb] + rest;
    assert f[1..][1..] == rest;
  }

  /** A format that is one literal text with no arguments left prints exactly that text. */
  lemma SprintfText(s: string)
    ensures Sprintf([Text(s)], []) == s
  {
    assert [Text(s)][1..] == [];
  }

  /** A slot holds one verb. */
  lemma VerbCountSlot(s: string, rest: seq<Piece>)
    ensures VerbCount(Slot(s, rest)) == 1 + VerbCount(rest)
  {
    var f := Slot(s, rest);
    assert f[1..] == [Verb] + rest;
    assert f[1..][1..] == rest;
  }

  /** The language names the prompts use instead of the codes. */
  const LanguageNames: map<string, string> := map[
    "zh-CN" := "简体中文",
    "zh-TW" := "繁體中文",
    "en-US" := "English",
    "en-GB" := "English",
    "ja" := "日本語",
    "ko" := "한국어",
    "fr" := "Français",
    "de" := "Deutsch",
    "es" := "Español",
    "pt" := "Português",
    "ru" := "Русский",
    "ar" := "العربية",
    "it" := "Italiano"]

  /** getLanguageName: the name listed for the code, or the code itself when it is not listed. */
  function LanguageName(code: string): (r: string)
    ensures code in LanguageNames ==> r == LanguageNames[code]
    ensures code !in LanguageNames ==> r == code
  {
    if code in LanguageNames then LanguageNames[code] else code
  }

  /** The summarization prompt up to its context slot: the role and the opening context tag. */
  const SummarizeHead: string :=
    "<role>\n"
      + "You are an expert content analyst. Your task is to extract key points from articles.\n"
      + "</role>\n"
      + "\n"
      + "<context>"

  /** The summarization prompt from the end of the target language to the language constraint's first slot. */
  const SummarizeRules: string :=
    "</target_language>\n"
      + "</context>\n"
      + "\n"
      + "<rules>\n"
      + "<accuracy>\n"
      + "- Extract ONLY information explicitly stated in the article\n"
      + "- NEVER fabricate, infer, or add information not present in the source\n"
      + "- If uncertain about a point, omit it rather than guess\n"
      + "</accuracy>\n"
      + "<completeness>\n"
      + "- Identify and include all significant points (3-5 key points)\n"
      + "- Do not omit critical information that changes the meaning\n"
      + "- Prioritize main arguments over minor details\n"
      + "</completeness>\n"
      + "</rules>\n"
      + "\n"
      + "<output_format>\n"
      + "- Plain text ONLY, one key point per line\n"
      + "- Write complete, self-contained sentences\n"
      + "- NO Markdown formatting (no *, -, 1., 2., headers, or emphasis)\n"
      + "- NO introductions, conclusions, or meta-commentary\n"
      + "- NO leading or trailing blank lines\n"
      + "</output_format>\n"
      + "\n"
      + "<language_constraint>\n"
      + "CRITICAL: You MUST write your ENTIRE response in "

  /** The HTML-block translation prompt up to its context slot. */
  const TranslateBlockHead: string :=
    "<role>\n"
      + "You are an expert translator specializing in web content. Your task is to translate HTML blocks while preserving structure.\n"
      + "</role>\n"
      + "\n"
      + "<context>"

  /** The HTML-block translation prompt from the end of the target language to the language constraint's first slot. */
  const TranslateBlockRules: string :=
    "</target_language>\n"
      + "</context>\n"
      + "\n"
      + "<rules>\n"
      + "<accuracy>\n"
      + "- Translate the MEANING, not word-for-word\n"
      + "- NEVER add, remove, or modify information\n"
      + "- Preserve the author's tone and intent\n"
      + "</accuracy>\n"
      + "<preservation>\n"
      + "- Keep ALL HTML tags, attributes, and structure exactly as-is\n"
      + "- NEVER translate: URLs, href/src attributes, email addresses\n"
      + "- NEVER translate content inside <code>, <pre>, or <math> tags\n"
      + "- Keep technical terms, brand names, and proper nouns unchanged when appropriate\n"
      + "</preservation>\n"
      + "</rules>\n"
      + "\n"
      + "<output_format>\n"
      + "- Output ONLY the translated HTML, nothing else\n"
      + "- NO markdown code blocks around the output\n"
      + "- NO explanations or notes\n"
      + "- NO leading or trailing whitespace\n"
      + "</output_format>\n"
      + "\n"
      + "<language_constraint>\n"
      + "CRITICAL: You MUST translate ALL text content into "

  /** The plain-text translation prompt up to the text type in its role. */
  const TranslateTextHead: string :=
    "<role>\n"
      + "You are an expert translator. Your task is to translate "

  /** The plain-text translation prompt between the role's text type and the content type slot. */
  const TranslateTextContentType: string :=
    " text.\n"
      + "</role>\n"
      + "\n"
      + "<context>\n"
      + "<content_type>"

  /** The plain-text translation prompt between the content type and the target language. */
  const TranslateTextTargetLanguage: string :=
    "</content_type>\n"
      + "<target_language>"

  /** The plain-text translation prompt from the end of the target language to the language constraint's first slot. */
  const TranslateTextRules: string :=
    "</target_language>\n"
      + "</context>\n"
      + "\n"
      + "<rules>\n"
      + "<accuracy>\n"
      + "- Translate the MEANING accurately\n"
      + "- NEVER add, remove, or modify information\n"
      + "- Preserve the original tone\n"
      + "</accuracy>\n"
      + "<preservation>\n"
      + "- Keep URLs unchanged\n"
      + "- Keep inline code (text in backticks) unchanged\n"
      + "- Keep technical terms and brand names unchanged when appropriate\n"
      + "</preservation>\n"
      + "</rules>\n"
      + "\n"
      + "<output_format>\n"
      + "- Output ONLY the translated text\n"
      + "- NO explanations or notes\n"
      + "- NO markdown formatting\n"
      + "- NO leading or trailing whitespace\n"
      + "</output_format>\n"
      + "\n"
      + "<language_constraint>\n"
      + "CRITICAL: You MUST translate into "

  /** The text between the context slot and the target language, shared by the two article prompts. */
  const TargetLanguageOpen: string :=
    "\n"
      + "<target_language>"

  /** The text between the language constraint's two mentions of the language, shared by all three prompts. */
  const MandatoryMiddle: string :=
    ".\n"
      + "This is MANDATORY. Any response not in "

  /** The text after the language constraint's second mention, shared by all three prompts. */
  const MandatoryTail: string :=
    " will be rejected.\n"
      + "</language_constraint>"

  /** The format of the title tag. */
  const TitleTagFormat: seq<Piece> := Slot("\n<article_title>", [Text("</article_title>")])

  /** The context line naming the article: nothing for an untitled article. */
  function TitleTag(title: string): (r: string)
    ensures r == "" <==> title == ""
  {
    if title == "" then "" else Sprintf(TitleTagFormat, [title])
  }

  /**
   * The layout the two article prompts share: a head ending in the opening
   * context tag, the title slot, the target language slot, the rules, and
   * the language constraint with its two language slots. Only the head and
   * the rules differ between them.
   */
  function ArticleFormat(head: string, rules: string): seq<Piece> {
    Slot(head, Slot(TargetLanguageOpen, Slot(rules, Slot(MandatoryMiddle, [Text(MandatoryTail)]))))
  }

  /** The plain-text translation layout: two text-type slots, then the three language slots. */
  function TextFormat(rules: string): seq<Piece> {
    Slot(TranslateTextHead, Slot(TranslateTextContentType, Slot(TranslateTextTargetLanguage,
      Slot(rules, Slot(MandatoryMiddle, [Text(MandatoryTail)])))))
  }

  /** An article prompt with the title tag and the language name filled in. */
  function ArticlePrompt(head: string, rules: string, title: string, language: string): string {
    var name := LanguageName(language);
    Sprintf(ArticleFormat(head, rules), [TitleTag(title), name, name, name])
  }

  /** GetSummarizePrompt. */
  function SummarizePrompt(title: string, language: string): string {
    ArticlePrompt(SummarizeHead, SummarizeRules, title, language)
  }

  /** GetTranslateBlockPrompt. */
  function TranslateBlockPrompt(title: string, language: string): string {
    ArticlePrompt(TranslateBlockHead, TranslateBlockRules, title, language)
  }

  /** GetTranslateTextPrompt: the plain-text template with the text type and the language name filled in. */
  function TranslateTextPrompt(textType: string, language: string): string {
    var name := LanguageName(language);
    Sprintf(TextFormat(TranslateTextRules), [textType, textType, name, name, name])
  }
}
