/**
 * The answer pipeline of services/geminiService.js: the three text searches,
 * the choice between the retrieval context and a three-section fallback
 * context, the prompt and history handed to the chat model, and the
 * success/failure reply.  The database queries and the chat model are oracles.
 */
module Gemini {
  import opened Text
  import opened Retrieval

  /** A row of `anayasa_maddeleri`; `gerekce` is None when NULL. */
  datatype Article = Article(maddeNo: string, baslik: string, icerik: string, gerekce: Option<string>)

  /** A row of `ceza_kanunu_madde`. */
  datatype PenalArticle = PenalArticle(maddeNo: string, baslik: string, icerik: string)

  /** A stored conversation message, and a turn of the chat model's history. */
  datatype Turn = Turn(role: string, content: string)
  datatype ChatTurn = ChatTurn(role: string, text: string)

  /**
   * cases: the full-text query on rulings (query, `%query%`); constitution and
   * penalCode: the ILIKE queries on articles (`%query%`); each gives the rows
   * it matches in its ORDER BY, and the `LIMIT` is applied below.  chat: a chat
   * started with the history, then sent the prompt.
   */
  datatype LawBackend = LawBackend(
    cases: (string, string) -> Attempt<seq<Ruling>>,
    constitution: string -> Attempt<seq<Article>>,
    penalCode: string -> Attempt<seq<PenalArticle>>,
    chat: (seq<ChatTurn>, string) -> Attempt<string>)

  /** A `search*` method: the first `limit` rows of its query, or [] when the query throws. */
  function RowsOrEmpty<T>(a: Attempt<seq<T>>, limit: nat): (r: seq<T>)
    ensures |r| <= limit
    ensures a.Failed? ==> r == []
    ensures a.Done? ==> |r| == Min(|a.value|, limit) && r == a.value[..|r|]
  {
    match a
    case Failed(_) => []
    case Done(rows) => Prefix(rows, limit)
  }

  /** `searchSimilarCases(query)`: at most five rulings. */
  function SearchSimilarCases(lb: LawBackend, query: string): (r: seq<Ruling>)
    ensures |r| <= 5
  {
    RowsOrEmpty(lb.cases(query, LikeTerm(query)), 5)
  }

  /** `searchAnayasaMaddeleri(query)`: at most three articles. */
  function SearchAnayasaMaddeleri(lb: LawBackend, query: string): (r: seq<Article>)
    ensures |r| <= 3
  {
    RowsOrEmpty(lb.constitution(LikeTerm(query)), 3)
  }

  /** `searchCezaKanunu(query)`: at most three articles. */
  function SearchCezaKanunu(lb: LawBackend, query: string): (r: seq<PenalArticle>)
    ensures |r| <= 3
  {
    RowsOrEmpty(lb.penalCode(LikeTerm(query)), 3)
  }

  // ---------------------------------------------------------------------------
  // The fallback context

  const ArticlesHeader := "İlgili anayasa maddeleri:\n\n"
  const PenalHeader := "İlgili ceza kanunu maddeleri:\n\n"

  /** The block of the n-th ruling; its text cut to 800 characters. */
  function CaseBlock(n: nat, k: Ruling, text: string): string {
    NatToString(n) + ". Başlık: " + k.baslik + "\n"
    + "   Mahkeme: " + k.mahkeme + "\n"
    + "   Başvuru No: " + k.basvuruNo + "\n"
    + "   Tarih: " + k.kararTarihi + "\n"
    + "   Başvurucu: " + k.basvurucu + "\n"
    + "   Özet: " + k.kararOzeti + "\n"
    + "   Karar Metni: " + Prefix(text, 800) + "...\n\n"
  }

  /** The ruling blocks numbered from 1; None when a ruling's text is NULL (the loop throws). */
  function CaseBlocks(ks: seq<Ruling>): (r: Option<string>)
    ensures r.Some? <==> forall i :: 0 <= i < |ks| ==> ks[i].tumMetin.Some?
    decreases |ks|
  {
    if ks == [] then Some("")
    else
      var last := ks[|ks| - 1];
      match CaseBlocks(ks[..|ks| - 1])
      case None => None
      case Some(blocks) =>
        match last.tumMetin
        case None => None
        case Some(t) => Some(blocks + CaseBlock(|ks|, last, t))
  }

  /** JavaScript truthiness of a nullable text column. */
  predicate Truthy(o: Option<string>) { o.Some? && o.value != "" }

  function ArticleHead(n: nat, a: Article): string {
    NatToString(n) + ". Madde " + a.maddeNo + ": " + a.baslik + "\n" + "   İçerik: " + a.icerik + "\n"
  }

  /** The block of the n-th article: the `Gerekçe` line only when the column is truthy. */
  function ArticleBlock(n: nat, a: Article): (r: string)
    ensures |r| > |ArticleHead(n, a)| && r[..|ArticleHead(n, a)|] == ArticleHead(n, a)
    ensures Truthy(a.gerekce) <==> |r| > |ArticleHead(n, a)| + 1
  {
    ArticleHead(n, a) + (if Truthy(a.gerekce) then "   Gerekçe: " + a.gerekce.value + "\n" else "") + "\n"
  }

  function ArticleBlocks(arts: seq<Article>): string
    decreases |arts|
  {
    if arts == [] then "" else ArticleBlocks(arts[..|arts| - 1]) + ArticleBlock(|arts|, arts[|arts| - 1])
  }

  function PenalBlock(n: nat, m: PenalArticle): string {
    NatToString(n) + ". Madde " + m.maddeNo + ": " + m.baslik + "\n" + "   İçerik: " + m.icerik + "\n\n"
  }

  function PenalBlocks(ps: seq<PenalArticle>): string
    decreases |ps|
  {
    if ps == [] then "" else PenalBlocks(ps[..|ps| - 1]) + PenalBlock(|ps|, ps[|ps| - 1])
  }

  /** A section: its header and blocks when it has rows, nothing otherwise. */
  function Section(rows: nat, header: string, blocks: string): string {
    if rows == 0 then "" else header + blocks
  }

  /** Rulings, then constitution articles, then penal-code articles. */
  function FallbackContext(ks: seq<Ruling>, arts: seq<Article>, ps: seq<PenalArticle>): (r: Option<string>)
    ensures r.Some? <==> forall i :: 0 <= i < |ks| ==> ks[i].tumMetin.Some?
  {
    match CaseBlocks(ks)
    case None => None
    case Some(blocks) =>
      Some(Section(|ks|, ContextHeader, blocks)
           + Section(|arts|, ArticlesHeader, ArticleBlocks(arts))
           + Section(|ps|, PenalHeader, PenalBlocks(ps)))
  }

  /** The fallback context is empty exactly when all three searches found nothing. */
  lemma FallbackEmptyIff(ks: seq<Ruling>, arts: seq<Article>, ps: seq<PenalArticle>)
    requires FallbackContext(ks, arts, ps).Some?
    ensures FallbackContext(ks, arts, ps).value == "" <==> ks == [] && arts == [] && ps == []
  {
    var c := FallbackContext(ks, arts, ps).value;
    var s1 := Section(|ks|, ContextHeader, CaseBlocks(ks).value);
    var s2 := Section(|arts|, ArticlesHeader, ArticleBlocks(arts));
    var s3 := Section(|ps|, PenalHeader, PenalBlocks(ps));
    assert c == s1 + s2 + s3;
    assert |c| == |s1| + |s2| + |s3|;
    assert ks != [] ==> |s1| >= |ContextHeader| > 0;
    assert arts != [] ==> |s2| >= |ArticlesHeader| > 0;
    assert ps != [] ==> |s3| >= |PenalHeader| > 0;
  }

  /** The first non-empty section, in the order rulings, constitution, penal code, opens the text. */
  lemma FallbackSectionOrder(ks: seq<Ruling>, arts: seq<Article>, ps: seq<PenalArticle>)
    requires FallbackContext(ks, arts, ps).Some?
    ensures ks != [] ==> StartsWithAt(FallbackContext(ks, arts, ps).value, 0, ContextHeader)
    ensures ks == [] && arts != [] ==> StartsWithAt(FallbackContext(ks, arts, ps).value, 0, ArticlesHeader)
    ensures ks == [] && arts == [] && ps != [] ==> StartsWithAt(FallbackContext(ks, arts, ps).value, 0, PenalHeader)
  {
    if ks != [] {
      RulingsOpen(ks, arts, ps);
    } else if arts != [] {
      ArticlesOpen(arts, ps);
    } else if ps != [] {
      PenalOpens(ps);
    }
  }

  lemma RulingsOpen(ks: seq<Ruling>, arts: seq<Article>, ps: seq<PenalArticle>)
    requires FallbackContext(ks, arts, ps).Some? && ks != []
    ensures StartsWithAt(FallbackContext(ks, arts, ps).value, 0, ContextHeader)
  {
    var s1 := Section(|ks|, ContextHeader, CaseBlocks(ks).value);
    var s2 := Section(|arts|, ArticlesHeader, ArticleBlocks(arts));
    var s3 := Section(|ps|, PenalHeader, PenalBlocks(ps));
    assert FallbackContext(ks, arts, ps).value == s1 + s2 + s3;
    HeaderFirst(ContextHeader, CaseBlocks(ks).value, s2 + s3);
    Associative(s1, s2, s3);
  }

  lemma ArticlesOpen(arts: seq<Article>, ps: seq<PenalArticle>)
    requires arts != []
    ensures StartsWithAt(FallbackContext([], arts, ps).value, 0, ArticlesHeader)
  {
    var s2 := Section(|arts|, ArticlesHeader, ArticleBlocks(arts));
    var s3 := Section(|ps|, PenalHeader, PenalBlocks(ps));
    assert CaseBlocks([]) == Some("");
    assert FallbackContext([], arts, ps).value == "" + s2 + s3;
    assert "" + s2 + s3 == s2 + s3;
    HeaderFirst(ArticlesHeader, ArticleBlocks(arts), s3);
  }

  lemma PenalOpens(ps: seq<PenalArticle>)
    requires ps != []
    ensures StartsWithAt(FallbackContext([], [], ps).value, 0, PenalHeader)
  {
    var s3 := Section(|ps|, PenalHeader, PenalBlocks(ps));
    assert FallbackContext([], [], ps).value == "" + "" + s3 == s3 + "";
    HeaderFirst(PenalHeader, PenalBlocks(ps), "");
  }

  lemma HeaderFirst(h: string, body: string, rest: string)
    ensures StartsWithAt(h + body + rest, 0, h)
  {
    assert (h + body + rest)[..|h|] == h;
  }

  // ---------------------------------------------------------------------------
  // prepareContext

  /**
   * What `prepareContext` settles on: the retrieval context when it was built
   * and is longer than 50 characters, the fallback context otherwise (None: the
   * fallback loop threw on a NULL ruling text).
   */
  function ContextFor(b: Backend, lb: LawBackend, query: string): (r: Option<string>)
    ensures r.None? ==> exists i :: 0 <= i < |SearchSimilarCases(lb, query)| && SearchSimilarCases(lb, query)[i].tumMetin.None?
  {
    var e := EmbeddingContext(HybridResult(b, query, 5));
    if e.Some? && |e.value| > 50 then e
    else FallbackContext(SearchSimilarCases(lb, query), SearchAnayasaMaddeleri(lb, query), SearchCezaKanunu(lb, query))
  }

  /**
   * The retrieval context is used exactly when the hybrid search found at least
   * one row and none of its rows has a NULL text.
   */
  lemma RetrievalContextChosen(b: Backend, lb: LawBackend, query: string)
    ensures var rows := HybridResult(b, query, 5);
            (rows != [] && forall i :: 0 <= i < |rows| ==> rows[i].chunkText.Some?)
            <==> ContextFor(b, lb, query) == EmbeddingContext(rows) && EmbeddingContext(rows).Some?
                 && |EmbeddingContext(rows).value| > 50
  {
    var rows := HybridResult(b, query, 5);
    var e := EmbeddingContext(rows);
    if e.Some? {
      ContextLengthRule(rows);
    }
  }

  lemma ContextFallsBack(b: Backend, lb: LawBackend, query: string)
    requires HybridResult(b, query, 5) == []
    ensures ContextFor(b, lb, query)
            == FallbackContext(SearchSimilarCases(lb, query), SearchAnayasaMaddeleri(lb, query), SearchCezaKanunu(lb, query))
  {
    ContextLengthRule([]);
  }

  /** `prepareContext`. */
  method PrepareContext(b: Backend, lb: LawBackend, query: string) returns (ctx: Option<string>)
    ensures ctx == ContextFor(b, lb, query)
  {
    var e := PrepareContextFromEmbeddings(b, query);
    if e.Some? && |e.value| > 50 {
      return e;
    }
    var similarCases := SearchSimilarCases(lb, query);
    var anayasaMaddeleri := SearchAnayasaMaddeleri(lb, query);
    var cezaKanunu := SearchCezaKanunu(lb, query);
    ctx := AssembleFallback(similarCases, anayasaMaddeleri, cezaKanunu);
  }

  /** The fallback half of `prepareContext`: the three sections appended in turn. */
  method AssembleFallback(similarCases: seq<Ruling>, anayasaMaddeleri: seq<Article>, cezaKanunu: seq<PenalArticle>)
    returns (ctx: Option<string>)
    ensures ctx == FallbackContext(similarCases, anayasaMaddeleri, cezaKanunu)
  {
    var context := "";
    if |similarCases| > 0 {
      var blocks := AppendCaseBlocks(similarCases);
      if blocks.None? {
        return None;
      }
      context := context + ContextHeader + blocks.value;
      assert "" + ContextHeader + blocks.value == ContextHeader + blocks.value;
    } else {
      assert CaseBlocks(similarCases) == Some("");
    }
    var s1 := context;
    assert s1 == Section(|similarCases|, ContextHeader, CaseBlocks(similarCases).value);
    if |anayasaMaddeleri| > 0 {
      var blocks := AppendArticleBlocks(anayasaMaddeleri);
      context := context + ArticlesHeader + blocks;
      Associative(s1, ArticlesHeader, blocks);
    }
    var s12 := context;
    assert s12 == s1 + Section(|anayasaMaddeleri|, ArticlesHeader, ArticleBlocks(anayasaMaddeleri));
    if |cezaKanunu| > 0 {
      var blocks := AppendPenalBlocks(cezaKanunu);
      context := context + PenalHeader + blocks;
      Associative(s12, PenalHeader, blocks);
    }
    assert context == s12 + Section(|cezaKanunu|, PenalHeader, PenalBlocks(cezaKanunu));
    ctx := Some(context);
  }

  lemma CaseBlocksSnoc(ks: seq<Ruling>, k: Ruling)
    requires CaseBlocks(ks).Some? && k.tumMetin.Some?
    ensures CaseBlocks(ks + [k]) == Some(CaseBlocks(ks).value + CaseBlock(|ks| + 1, k, k.tumMetin.value))
  {
    var t := ks + [k];
    assert t[..|t| - 1] == ks && t[|t| - 1] == k;
  }

  /** The rulings loop of `prepareContext`. */
  method AppendCaseBlocks(ks: seq<Ruling>) returns (r: Option<string>)
    ensures r == CaseBlocks(ks)
  {
    var text := "";
    var i := 0;
    while i < |ks|
      invariant 0 <= i <= |ks|
      invariant CaseBlocks(ks[..i]) == Some(text)
    {
      var k := ks[i];
      assert ks[..i + 1] == ks[..i] + [k];
      if k.tumMetin.None? {
        assert !CaseBlocks(ks).Some?;
        return None;
      }
      CaseBlocksSnoc(ks[..i], k);
      text := text + CaseBlock(i + 1, k, k.tumMetin.value);
      i := i + 1;
    }
    assert ks[..i] == ks;
    r := Some(text);
  }

  lemma ArticleBlocksSnoc(arts: seq<Article>, i: nat)
    requires i < |arts|
    ensures ArticleBlocks(arts[..i + 1]) == ArticleBlocks(arts[..i]) + ArticleBlock(i + 1, arts[i])
  {
    assert arts[..i + 1][..i] == arts[..i] && arts[..i + 1][i] == arts[i];
  }

  /** The block as the loop builds it with `+=`. */
  lemma ArticleBlockParts(n: nat, a: Article)
    ensures Truthy(a.gerekce) ==> ArticleBlock(n, a) == ArticleHead(n, a) + "   Gerekçe: " + a.gerekce.value + "\n" + "\n"
    ensures !Truthy(a.gerekce) ==> ArticleBlock(n, a) == ArticleHead(n, a) + "\n"
  {
    if Truthy(a.gerekce) {
      Associative(ArticleHead(n, a), "   Gerekçe: " + a.gerekce.value, "\n");
    } else {
      assert ArticleHead(n, a) + "" == ArticleHead(n, a);
    }
  }

  /** The constitution loop of `prepareContext`. */
  method AppendArticleBlocks(arts: seq<Article>) returns (text: string)
    ensures text == ArticleBlocks(arts)
  {
    text := "";
    var i := 0;
    while i < |arts|
      invariant 0 <= i <= |arts|
      invariant ArticleBlocks(arts[..i]) == text
    {
      var a := arts[i];
      ArticleBlocksSnoc(arts, i);
      var block := ArticleHead(i + 1, a);
      if Truthy(a.gerekce) {
        block := block + "   Gerekçe: " + a.gerekce.value + "\n";
      }
      block := block + "\n";
      ArticleBlockParts(i + 1, a);
      text := text + block;
      i := i + 1;
    }
    assert arts[..i] == arts;
  }

  /** The penal-code loop of `prepareContext`. */
  method AppendPenalBlocks(ps: seq<PenalArticle>) returns (text: string)
    ensures text == PenalBlocks(ps)
  {
    text := "";
    var i := 0;
    while i < |ps|
      invariant 0 <= i <= |ps|
      invariant PenalBlocks(ps[..i]) == text
    {
      assert ps[..i + 1][..i] == ps[..i] && ps[..i + 1][i] == ps[i];
      text := text + PenalBlock(i + 1, ps[i]);
      i := i + 1;
    }
    assert ps[..i] == ps;
  }

  // ---------------------------------------------------------------------------
  // generateResponse

  const PromptHead: string :=
    "Sen Türk hukuk sistemi konusunda uzman bir AI asistanısın. \n"
    + "      Mahkeme kararları ve hukuki mevzuat konusunda hukukçulara yardımcı oluyorsun.\n"
    + "      \n"
    + "      Yanıt formatını şu şekilde düzenle:\n"
    + "      \n"
    + "      1. **MEVCUT DURUM ANALİZİ**: Sorunun hukuki çerçevesini çiz\n"
    + "      2. **İLGİLİ MAHKEME KARARLARI**: Veritabanından bulunan kararları analiz et\n"
    + "      3. **HUKUKİ DEĞERLENDİRME**: Kararların ışığında durumu değerlendir\n"
    + "      4. **PRATİK TAVSİYELER**: Somut öneriler ve stratejiler sun\n"
    + "      5. **RİSK ANALİZİ**: Olası sonuçları ve riskleri belirt\n"
    + "      6. **ALTERNATİF ÇÖZÜMLER**: Farklı yaklaşımları değerlendir\n"
    + "      \n"
    + "      Önemli kurallar:\n"
    + "      - Türk hukuk sistemi odaklı ol\n"
    + "      - Mahkeme kararlarını detaylı analiz et\n"
    + "      - Pratik ve uygulanabilir tavsiyeler ver\n"
    + "      - Risk ve fırsatları dengeli değerlendir\n"
    + "      - Türkçe yanıtla\n"
    + "      - Profesyonel ve anlaşılır ol\n"
    + "      \n"
    + "      İlgili mahkeme kararları:\n"
    + "      "

  const QuestionLabel := "\n      \n      Kullanıcı sorusu: "

  /** The prompt of `generateResponse`: the fixed instructions, the context, the question. */
  function SystemPrompt(context: string, userMessage: string): string {
    PromptWith(PromptHead, context, userMessage)
  }

  function PromptWith(head: string, context: string, question: string): string {
    head + context + QuestionLabel + question
  }

  /** A prompt opens with its instructions, then the context, and ends with the user's question. */
  lemma PromptLayout(head: string, context: string, question: string)
    ensures var p := PromptWith(head, context, question);
            StartsWithAt(p, 0, head) && StartsWithAt(p, |head|, context)
            && |head| + |context| <= |p| - |question| && StartsWithAt(p, |p| - |question|, question)
  {
    var p := PromptWith(head, context, question);
    assert p[..|head|] == head;
    assert p[|head|..|head| + |context|] == context;
    assert p[|p| - |question|..] == question;
  }

  /** The stored history as the chat model reads it: `user` stays, every other role is `model`. */
  function MapHistory(history: seq<Turn>): (r: seq<ChatTurn>)
    ensures |r| == |history|
    ensures forall i :: 0 <= i < |r| ==>
              r[i].text == history[i].content
              && (r[i].role == "user" || r[i].role == "model")
              && (r[i].role == "user" <==> history[i].role == "user")
  {
    seq(|history|, i requires 0 <= i < |history| =>
      ChatTurn(if history[i].role == "user" then "user" else "model", history[i].content))
  }

  datatype AiReply = AiSuccess(response: string, context: string) | AiFailure(error: string, details: string)

  const ServiceUnavailable := "AI servisi şu anda kullanılamıyor. Lütfen daha sonra tekrar deneyin."

  /** The message of the TypeError thrown when a NULL ruling text is cut. */
  const NullTextError := "Cannot read properties of null (reading 'substring')"

  /**
   * `generateResponse`: the context, the prompt, one chat exchange.  Any failure
   * gives the fixed error text; success carries the answer and the context.
   */
  method GenerateResponse(b: Backend, lb: LawBackend, userMessage: string, history: seq<Turn>)
    returns (reply: AiReply)
    ensures reply.AiSuccess? <==>
              ContextFor(b, lb, userMessage).Some?
              && lb.chat(MapHistory(history), SystemPrompt(ContextFor(b, lb, userMessage).value, userMessage)).Done?
    ensures reply.AiSuccess? ==>
              reply.context == ContextFor(b, lb, userMessage).value
              && reply.response == lb.chat(MapHistory(history), SystemPrompt(reply.context, userMessage)).value
    ensures reply.AiFailure? ==> reply.error == ServiceUnavailable
  {
    var context := PrepareContext(b, lb, userMessage);
    reply := Converse(lb, context, userMessage, history);
  }

  /** The exchange of `generateResponse` once the context is settled (None: it threw). */
  method Converse(lb: LawBackend, context: Option<string>, userMessage: string, history: seq<Turn>)
    returns (reply: AiReply)
    ensures reply.AiSuccess? <==>
              context.Some? && lb.chat(MapHistory(history), SystemPrompt(context.value, userMessage)).Done?
    ensures reply.AiSuccess? ==>
              reply.context == context.value
              && reply.response == lb.chat(MapHistory(history), SystemPrompt(reply.context, userMessage)).value
    ensures reply.AiFailure? ==> reply.error == ServiceUnavailable
  {
    if context.None? {
      return AiFailure(ServiceUnavailable, NullTextError);
    }
    var systemPrompt := SystemPrompt(context.value, userMessage);
    var chatHistory := MapHistory(history);
    match lb.chat(chatHistory, systemPrompt)
    case Failed(message) =>
      reply := AiFailure(ServiceUnavailable, message);
    case Done(text) =>
      reply := AiSuccess(text, context.value);
  }
}
