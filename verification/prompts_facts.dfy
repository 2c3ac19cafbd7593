/**
 * What the prompt builders promise: the language table falls back to the
 * code itself, the title tag appears only for titled articles, and each
 * prompt is its fixed text with the title tag, text type and language name
 * in their slots and in no others.
 */
module PromptsFacts {
  import opened Prompts

  /** No listed name equals its own code, so a name equals the code exactly when the code is not listed. */
  lemma LanguageNameFallback(code: string)
    ensures LanguageName(code) == code <==> code !in LanguageNames
  {
    if code in LanguageNames {
      assert LanguageNames[code] != code;
    }
  }

  /** The table lists thirteen codes, and both English variants read "English". */
  lemma LanguageTable()
    ensures LanguageNames.Keys == {"zh-CN", "zh-TW", "en-US", "en-GB", "ja", "ko", "fr", "de", "es", "pt", "ru", "ar", "it"}
    ensures LanguageName("en-US") == "English" && LanguageName("en-GB") == "English"
  {
  }

  /** Two listed codes share a name only when they are the two English variants. */
  lemma LanguageNamesDistinct(a: string, b: string)
    requires a in LanguageNames && b in LanguageNames && a != b
    requires LanguageName(a) == LanguageName(b)
    ensures {a, b} == {"en-US", "en-GB"}
  {
  }

  /** The title tag of a titled article wraps the title in article_title tags on a line of its own. */
  lemma TitleTagShape(title: string)
    requires title != ""
    ensures TitleTag(title) == "\n<article_title>" + title + "</article_title>"
  {
    SprintfSlot("\n<article_title>", [Text("</article_title>")], [title]);
    SprintfText("</article_title>");
  }

  /** The verbs of a format of four slots and a closing text. */
  lemma VerbCountFour(a: string, b: string, c: string, d: string, e: string)
    ensures VerbCount(Slot(a, Slot(b, Slot(c, Slot(d, [Text(e)]))))) == 4
  {
    VerbCountSlot(a, Slot(b, Slot(c, Slot(d, [Text(e)]))));
    VerbCountSlot(b, Slot(c, Slot(d, [Text(e)])));
    VerbCountSlot(c, Slot(d, [Text(e)]));
    VerbCountSlot(d, [Text(e)]);
    assert [Text(e)][1..] == [];
  }

  /**
   * Every format has exactly as many verbs as its call passes arguments
   * (one title, four for an article prompt, five for a plain-text prompt),
   * so fmt adds no error marker.
   */
  lemma FormatsMatchArguments(head: string, rules: string)
    ensures VerbCount(TitleTagFormat) == 1
    ensures VerbCount(ArticleFormat(head, rules)) == 4
    ensures VerbCount(TextFormat(rules)) == 5
  {
    VerbCountSlot("\n<article_title>", [Text("</article_title>")]);
    assert [Text("</article_title>")][1..] == [];
    VerbCountFour(head, TargetLanguageOpen, rules, MandatoryMiddle, MandatoryTail);
    VerbCountFour(TranslateTextContentType, TranslateTextTargetLanguage, rules, MandatoryMiddle, MandatoryTail);
    VerbCountSlot(TranslateTextHead, Slot(TranslateTextContentType, Slot(TranslateTextTargetLanguage,
      Slot(rules, Slot(MandatoryMiddle, [Text(MandatoryTail)])))));
  }

  /** Filling four slots and a closing text: each argument lands between the texts around its slot. */
  lemma FillFour(a: string, b: string, c: string, d: string, e: string, x: seq<string>)
    requires |x| == 4
    ensures Sprintf(Slot(a, Slot(b, Slot(c, Slot(d, [Text(e)])))), x)
      == a + (x[0] + (b + (x[1] + (c + (x[2] + (d + (x[3] + e)))))))
  {
    SprintfSlot(a, Slot(b, Slot(c, Slot(d, [Text(e)]))), x);
    SprintfSlot(b, Slot(c, Slot(d, [Text(e)])), x[1..]);
    SprintfSlot(c, Slot(d, [Text(e)]), x[2..]);
    SprintfSlot(d, [Text(e)], x[3..]);
    assert x[1..][1..] == x[2..] && x[2..][1..] == x[3..] && x[3..][1..] == [];
    SprintfText(e);
  }

  /**
   * An article prompt: its head, the title tag in the context slot, the
   * language name as the target language, the rules, and the language name
   * twice more in the language constraint.
   */
  lemma ArticleSlots(head: string, rules: string, title: string, language: string)
    ensures var name := LanguageName(language);
      ArticlePrompt(head, rules, title, language)
        == head + (TitleTag(title) + (TargetLanguageOpen + (name + (rules + (name
           + (MandatoryMiddle + (name + MandatoryTail)))))))
  {
    var name := LanguageName(language);
    FillFour(head, TargetLanguageOpen, rules, MandatoryMiddle, MandatoryTail, [TitleTag(title), name, name, name]);
  }

  /** The summarization prompt, slot by slot. */
  lemma SummarizeSlots(title: string, language: string)
    ensures var name := LanguageName(language);
      SummarizePrompt(title, language)
        == SummarizeHead + (TitleTag(title) + (TargetLanguageOpen + (name + (SummarizeRules + (name
           + (MandatoryMiddle + (name + MandatoryTail)))))))
  {
    ArticleSlots(SummarizeHead, SummarizeRules, title, language);
  }

  /** The HTML-block translation prompt, slot by slot. */
  lemma TranslateBlockSlots(title: string, language: string)
    ensures var name := LanguageName(language);
      TranslateBlockPrompt(title, language)
        == TranslateBlockHead + (TitleTag(title) + (TargetLanguageOpen + (name + (TranslateBlockRules + (name
           + (MandatoryMiddle + (name + MandatoryTail)))))))
  {
    ArticleSlots(TranslateBlockHead, TranslateBlockRules, title, language);
  }

  /**
   * The plain-text translation prompt: its fixed text, with the text type in
   * the role and as the content type, and the language name as the target
   * language and twice in the language constraint; it has no title slot.
   */
  lemma TranslateTextSlots(textType: string, language: string)
    ensures var name := LanguageName(language);
      TranslateTextPrompt(textType, language)
        == TranslateTextHead + (textType + (TranslateTextContentType + (textType + (TranslateTextTargetLanguage
           + (name + (TranslateTextRules + (name + (MandatoryMiddle + (name + MandatoryTail)))))))))
  {
    TextSlots(TranslateTextRules, textType, LanguageName(language));
  }

  /** The plain-text layout filled in, for any rules text. */
  lemma TextSlots(rules: string, textType: string, name: string)
    ensures Sprintf(TextFormat(rules), [textType, textType, name, name, name])
        == TranslateTextHead + (textType + (TranslateTextContentType + (textType + (TranslateTextTargetLanguage
           + (name + (rules + (name + (MandatoryMiddle + (name + MandatoryTail)))))))))
  {
    FillFive(TranslateTextHead, TranslateTextContentType, TranslateTextTargetLanguage, rules,
      MandatoryMiddle, MandatoryTail, [textType, textType, name, name, name]);
  }

  /** Filling five slots and a closing text. */
  lemma FillFive(a: string, b: string, c: string, d: string, e: string, g: string, x: seq<string>)
    requires |x| == 5
    ensures Sprintf(Slot(a, Slot(b, Slot(c, Slot(d, Slot(e, [Text(g)]))))), x)
      == a + (x[0] + (b + (x[1] + (c + (x[2] + (d + (x[3] + (e + (x[4] + g)))))))))
  {
    SprintfSlot(a, Slot(b, Slot(c, Slot(d, Slot(e, [Text(g)])))), x);
    FillFour(b, c, d, e, g, x[1..]);
  }

  /**
   * An untitled article gets the same prompt as a titled one with the title
   * line left out, and a titled one carries its title in a tag on a line of
   * its own right after the opening context tag.
   */
  lemma ArticleTitleLine(head: string, rules: string, title: string, language: string)
    ensures var name := LanguageName(language);
      var rest := TargetLanguageOpen + (name + (rules + (name + (MandatoryMiddle + (name + MandatoryTail)))));
      && (title == "" ==> ArticlePrompt(head, rules, title, language) == head + rest)
      && (title != "" ==>
            ArticlePrompt(head, rules, title, language) == head + (("\n<article_title>" + title + "</article_title>") + rest))
  {
    ArticleSlots(head, rules, title, language);
    if title != "" {
      TitleTagShape(title);
    }
  }
}
