/**
 * The page's state: the catalog loaded once (`todasLinguagens`) and the
 * contents of `.card-container`, rebuilt by `renderizarCards`, by the search
 * of `iniciarBusca` and by the load of `carregarDados`.
 */
module Page {
  import opened Strings
  import opened Catalog

  datatype Option<T> = None | Some(value: T)

  /** What the container can hold: the "no match" feedback paragraph, the
      load-failure paragraph, or one card per language. */
  datatype View =
    | Feedback
    | Error
    | Card(nome: string, anoLancamento: int, descricao: string, link: string)

  /** The card built for one entry: its name, year, description and link. */
  function CardOf(dado: Language): View {
    Card(dado.nome, dado.anoLancamento, dado.descricao, dado.link)
  }

  /** One card per entry, in the entries' order. */
  function Cards(dados: seq<Language>): (r: seq<View>)
    ensures |r| == |dados|
    ensures forall i :: 0 <= i < |dados| ==> r[i] == CardOf(dados[i])
  {
    if dados == [] then [] else [CardOf(dados[0])] + Cards(dados[1..])
  }

  /** What the container shows after rendering `dados`, whatever it held
      before. */
  function RenderedView(dados: seq<Language>): (r: seq<View>)
    ensures dados == [] ==> r == [Feedback]
    ensures dados != [] ==> |r| == |dados| && forall i :: 0 <= i < |r| ==> r[i] == CardOf(dados[i])
    ensures Error !in r
  {
    if dados == [] then [Feedback] else Cards(dados)
  }

  /** What the data request produced: a response with its HTTP status and,
      when the body parsed as a list of languages, that list; or no response
      at all. */
  datatype Response =
    | Response(status: int, body: Option<seq<Language>>)
    | NetworkError

  /** `resposta.ok`: a status in the range 200 to 299. */
  predicate IsOk(status: int) {
    200 <= status <= 299
  }

  /** The request succeeded and its body parsed: the only case in which
      `carregarDados` gets past its `try` block without a throw. */
  predicate Delivers(resposta: Response) {
    resposta.Response? && IsOk(resposta.status) && resposta.body.Some?
  }

  /** The life of the page: before the data arrives, after it arrived, after
      the load failed. */
  datatype Phase = Unloaded | Ready | Failed

  /** The module-level state of the page script. */
  class App {
    var todasLinguagens: seq<Language>
    var cardContainer: seq<View>
    ghost var phase: Phase
    /** The normalised term whose results the container shows, once loaded. */
    ghost var shownTerm: string

    /** Before the load the catalog is empty; once loaded, the container
        shows the catalog filtered by the last term. */
    ghost predicate Valid()
      reads this
    {
      (phase == Unloaded ==> todasLinguagens == [])
      && (phase == Ready ==> cardContainer == RenderedView(Filter(todasLinguagens, shownTerm)))
    }

    constructor ()
      ensures Valid()
      ensures todasLinguagens == [] && cardContainer == [] && phase == Unloaded
    {
      todasLinguagens := [];
      cardContainer := [];
      phase := Unloaded;
      shownTerm := [];
    }

    /** `renderizarCards(dados)`: clears the container, then shows the
        feedback message or appends one card per entry. */
    method Render(dados: seq<Language>)
      modifies this`cardContainer
      ensures cardContainer == RenderedView(dados)
    {
      cardContainer := [];
      if |dados| == 0 {
        cardContainer := [Feedback];
        return;
      }
      for i := 0 to |dados|
        invariant |cardContainer| == i
        invariant forall k :: 0 <= k < i ==> cardContainer[k] == CardOf(dados[k])
      {
        cardContainer := cardContainer + [CardOf(dados[i])];
      }
    }

    /** `iniciarBusca()`, given the input element's value, or `None` when the
        input element is missing from the page. */
    method Search(input: Option<string>)
      requires Valid()
      modifies this
      ensures Valid()
      ensures input.None? ==> cardContainer == old(cardContainer) && shownTerm == old(shownTerm)
      ensures input.Some? ==>
                cardContainer == RenderedView(Filter(todasLinguagens, Normalize(input.value)))
                && shownTerm == Normalize(input.value)
      ensures todasLinguagens == old(todasLinguagens) && phase == old(phase)
    {
      if input.None? {
        return;
      }
      var termo := Normalize(input.value);
      var dadosFiltrados := Filter(todasLinguagens, termo);
      Render(dadosFiltrados);
      shownTerm := termo;
    }

    /** `carregarDados()`, given what the request for the data file produced.
        A status outside 200..299 is rejected before the body is looked at; a
        network error, that rejection and a body that does not parse all end
        in the same place: the container holds the error message alone and
        the catalog keeps its value. Otherwise the catalog is replaced and
        shown in full. */
    method Load(resposta: Response)
      requires Valid()
      modifies this
      ensures Valid()
      ensures Delivers(resposta) ==>
                todasLinguagens == resposta.body.value
                && cardContainer == RenderedView(todasLinguagens)
                && phase == Ready
      ensures !Delivers(resposta) ==>
                todasLinguagens == old(todasLinguagens)
                && cardContainer == [Error]
                && phase == Failed
      ensures !Delivers(resposta) && old(phase) == Unloaded ==> todasLinguagens == []
    {
      if resposta.NetworkError? || !IsOk(resposta.status) || resposta.body.None? {
        cardContainer := [Error];
        phase := Failed;
        return;
      }
      todasLinguagens := resposta.body.value;
      Render(todasLinguagens);
      EmptyTermKeepsAll(todasLinguagens);
      phase, shownTerm := Ready, [];
    }
  }

  /** Two searches with the same input leave the same container, and the
      catalog is the same after both. */
  method RepeatedSearch(app: App, input: Option<string>) returns (first: seq<View>, second: seq<View>)
    requires app.Valid()
    modifies app
    ensures first == second
    ensures app.todasLinguagens == old(app.todasLinguagens)
  {
    app.Search(input);
    first := app.cardContainer;
    app.Search(input);
    second := app.cardContainer;
  }

  /** Start-up with a server error (status 500): the catalog stays empty and
      the container holds the error message alone. The input listener stays
      registered, so a later keystroke replaces the error message with the
      "no match" feedback. */
  method FailedLoadThenSearch(term: string) returns (afterLoad: seq<View>, afterSearch: seq<View>, catalog: seq<Language>)
    ensures afterLoad == [Error]
    ensures afterSearch == [Feedback]
    ensures catalog == []
  {
    var app := new App();
    app.Load(Response(500, None));
    afterLoad := app.cardContainer;
    app.Search(Some(term));
    afterSearch := app.cardContainer;
    catalog := app.todasLinguagens;
  }
}
