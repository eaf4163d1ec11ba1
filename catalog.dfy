/**
 * The search of `iniciarBusca`: normalising the typed term and filtering the
 * loaded catalog by a case-insensitive substring match on name or
 * description.
 */
module Catalog {
  import opened Strings

  /** One entry of the data file: `nome`, `descricao`, `ano_lancamento`, `link`. */
  datatype Language = Language(nome: string, descricao: string, anoLancamento: int, link: string)

  /** The search term as the search uses it: lowercased, then trimmed. */
  function Normalize(raw: string): (termo: string)
    ensures |termo| <= |raw|
  {
    Trim(Lower(raw))
  }

  /** The normalised term has no surrounding whitespace, is already in lower
      case, and normalising it again changes nothing. */
  lemma {:induction false} NormalizeIsNormal(raw: string)
    ensures Trimmed(Normalize(raw))
    ensures Lower(Normalize(raw)) == Normalize(raw)
    ensures Normalize(Normalize(raw)) == Normalize(raw)
  {
    var l := Lower(raw);
    TrimLowerCommute(l);
    LowerIdempotent(raw);
    LowerIdempotent(Trim(l));
    TrimIdempotent(l);
  }

  /** The filter's predicate: the lowercased name or the lowercased
      description contains the term. */
  predicate Matches(dado: Language, termo: string) {
    Contains(Lower(dado.nome), termo) || Contains(Lower(dado.descricao), termo)
  }

  /** `todasLinguagens.filter(...)`: a new sequence, the catalog left as it is. */
  function Filter(dados: seq<Language>, termo: string): (r: seq<Language>)
    ensures |r| <= |dados|
    ensures forall x :: x in r ==> x in dados && Matches(x, termo)
    ensures forall x :: x in dados && Matches(x, termo) ==> x in r
  {
    if dados == [] then []
    else
      var init, last := dados[..|dados| - 1], dados[|dados| - 1];
      if Matches(last, termo) then Filter(init, termo) + [last] else Filter(init, termo)
  }

  /** The positions of the catalog entries that match, in increasing order. */
  function MatchingIndices(dados: seq<Language>, termo: string): (idx: seq<nat>)
    ensures forall k :: 0 <= k < |idx| ==> idx[k] < |dados|
    ensures forall k, l :: 0 <= k < l < |idx| ==> idx[k] < idx[l]
    ensures forall i :: 0 <= i < |dados| ==> (i in idx <==> Matches(dados[i], termo))
  {
    if dados == [] then []
    else
      var n := |dados| - 1;
      var init := MatchingIndices(dados[..n], termo);
      if Matches(dados[n], termo) then init + [n] else init
  }

  /** The search result is exactly the matching entries of the catalog, in
      catalog order: its k-th element is the entry at the k-th matching
      position. */
  lemma {:induction false} FilterSelectsMatching(dados: seq<Language>, termo: string)
    ensures |Filter(dados, termo)| == |MatchingIndices(dados, termo)|
    ensures forall k :: 0 <= k < |Filter(dados, termo)| ==>
              Filter(dados, termo)[k] == dados[MatchingIndices(dados, termo)[k]]
  {
    if dados != [] {
      var n := |dados| - 1;
      var init := dados[..n];
      FilterSelectsMatching(init, termo);
      var f, fi := Filter(dados, termo), Filter(init, termo);
      var idx, ii := MatchingIndices(dados, termo), MatchingIndices(init, termo);
      assert f == if Matches(dados[n], termo) then fi + [dados[n]] else fi;
      assert idx == if Matches(dados[n], termo) then ii + [n] else ii;
      forall k | 0 <= k < |f|
        ensures f[k] == dados[idx[k]]
      {
        if k < |fi| {
          assert f[k] == fi[k] == init[ii[k]];
          assert idx[k] == ii[k];
        }
      }
    }
  }

  /** Searching for the empty term keeps the whole catalog, in order,
      because every string includes the empty string. */
  lemma {:induction false} EmptyTermKeepsAll(dados: seq<Language>)
    ensures Filter(dados, []) == dados
  {
    if dados != [] {
      var n := |dados| - 1;
      EmptyTermKeepsAll(dados[..n]);
      ContainsEmpty(Lower(dados[n].nome));
      assert dados[..n] + [dados[n]] == dados;
    }
  }

  /** A term normalises to the empty term exactly when it is blank. */
  lemma {:induction false} NormalizeBlankIff(raw: string)
    ensures Normalize(raw) == [] <==> AllSpace(raw)
  {
    TrimEmptyIff(Lower(raw));
    LowerAllSpace(raw);
  }

  /** A blank term shows the whole catalog. */
  lemma {:induction false} BlankTermKeepsAll(dados: seq<Language>, raw: string)
    requires AllSpace(raw)
    ensures Filter(dados, Normalize(raw)) == dados
  {
    NormalizeBlankIff(raw);
    EmptyTermKeepsAll(dados);
  }

  /** Surrounding whitespace does not change the normalised term. */
  lemma {:induction false} NormalizeIgnoresPadding(raw: string, pre: string, post: string)
    requires AllSpace(pre) && AllSpace(post)
    ensures Normalize(pre + raw + post) == Normalize(raw)
  {
    LowerOfPadded(pre, raw, post);
    TrimIgnoresPadding(pre, Lower(raw), post);
  }

  /** Terms that differ only in letter case and in surrounding whitespace
      select the same entries. */
  lemma {:induction false} SameTermSameResult(dados: seq<Language>, a: string, b: string, pre: string, post: string)
    requires Lower(a) == Lower(b)
    requires AllSpace(pre) && AllSpace(post)
    ensures Normalize(pre + a + post) == Normalize(b)
    ensures Filter(dados, Normalize(pre + a + post)) == Filter(dados, Normalize(b))
  {
    NormalizeIgnoresPadding(a, pre, post);
  }

  /** Searching the result again with the same term changes nothing. */
  lemma {:induction false} FilterIdempotent(dados: seq<Language>, termo: string)
    ensures Filter(Filter(dados, termo), termo) == Filter(dados, termo)
  {
    if dados != [] {
      var n := |dados| - 1;
      var init := dados[..n];
      FilterIdempotent(init, termo);
      var fi := Filter(init, termo);
      if Matches(dados[n], termo) {
        var r := fi + [dados[n]];
        assert r[..|r| - 1] == fi;
      }
    }
  }
}
