/**
  The record store and its seven JPQL filter queries. The store is a map from
  the generated key to the record; each query denotes the set of stored
  records its `where` clause accepts (no query has an `order by`).
 */
module FilmeRepository {
  import opened Optional
  import opened JavaString
  import opened SqlLike
  import opened Filmes

  type Store = map<Int32, Filme>

  /** Every stored record carries its own key as its id. */
  predicate Valid(store: Store) {
    forall k :: k in store ==> store[k].id == Some(k)
  }

  /** findById. */
  function FindById(store: Store, id: Int32): (r: Option<Filme>)
    ensures r.Some? <==> id in store
    ensures r.Some? ==> r.value == store[id]
  {
    if id in store then Some(store[id]) else None
  }

  /** save of a record whose id is set: the entry at that key becomes the record. */
  function Save(store: Store, f: Filme): (r: Store)
    requires f.id.Some?
    ensures r.Keys == store.Keys + {f.id.value}
    ensures r[f.id.value] == f
    ensures forall k :: k in store && k != f.id.value ==> r[k] == store[k]
    ensures Valid(store) ==> Valid(r)
  {
    store[f.id.value := f]
  }

  /** A call of one of the seven repository filter methods, with its bound parameters. */
  datatype Query =
    | FiltrarTextoEstrelasAno(texto: string, estrelas: Int32, ano: Int32)
    | FiltrarTextoEstrelas(texto: string, estrelas: Int32)
    | FiltrarTextoAno(texto: string, ano: Int32)
    | FiltrarEstrelasAno(estrelas: Int32, ano: Int32)
    | FiltrarTexto(texto: string)
    | FiltrarEstrelas(estrelas: Int32)
    | FiltrarAno(anoOuNulo: Option<Int32>)

  /**
    What the store does with `f.ano = :ano` bound to null is not part of this
    model; every other call is interpreted.
   */
  predicate Interpretado(q: Query) {
    !(q.FiltrarAno? && q.anoOuNulo.None?)
  }

  /**
    `upper(field) like :texto`; a null field is unknown in SQL, so it never
    matches, and the pattern `%` accepts every other field.
   */
  function LikeCampo(campo: Option<string>, padrao: string): (r: bool)
    ensures r ==> campo.Some?
    ensures padrao == "%" ==> (r <==> campo.Some?)
  {
    if campo.None? then false
    else
      LikePercent(ToUpperCase(campo.value));
      Like(ToUpperCase(campo.value), padrao)
  }

  /** The text condition searches exactly the six fields other than posterUrl. */
  predicate Buscado(c: CampoTexto) {
    c != PosterUrl
  }

  /** The text condition shared by four queries: an OR over six fields (posterUrl is not among them). */
  function MatchTexto(f: Filme, padrao: string): (r: bool)
    ensures r ==> exists c :: Buscado(c) && Texto(f, c).Some?
  {
    assert Texto(f, Titulo) == f.titulo && Texto(f, TituloOriginal) == f.tituloOriginal;
    assert Texto(f, Direcao) == f.direcao && Texto(f, Roteiro) == f.roteiro;
    assert Texto(f, Elenco) == f.elenco && Texto(f, Sinopse) == f.sinopse;
    || LikeCampo(f.titulo, padrao)
    || LikeCampo(f.tituloOriginal, padrao)
    || LikeCampo(f.direcao, padrao)
    || LikeCampo(f.roteiro, padrao)
    || LikeCampo(f.elenco, padrao)
    || LikeCampo(f.sinopse, padrao)
  }

  /** `f.estrelas = :estrelas`: the stars getter holds the bound value; a null never matches. */
  function MatchEstrelas(f: Filme, estrelas: Int32): (r: bool)
    ensures r <==> Numero(f, Estrelas) == Some(estrelas)
  {
    f.estrelas == Some(estrelas)
  }

  /** `f.ano = :ano`: the year getter holds the bound value; a null never matches. */
  function MatchAno(f: Filme, ano: Int32): (r: bool)
    ensures r <==> Numero(f, Ano) == Some(ano)
  {
    f.ano == Some(ano)
  }

  /** The `where` clause of each query: the conjunction of the criteria the query is bound to. */
  function Where(q: Query, f: Filme): (r: bool)
    requires Interpretado(q)
    ensures r <==> Atende(f, Args(q))
  {
    match q
    case FiltrarTextoEstrelasAno(t, s, y) => MatchTexto(f, t) && MatchEstrelas(f, s) && MatchAno(f, y)
    case FiltrarTextoEstrelas(t, s) => MatchTexto(f, t) && MatchEstrelas(f, s)
    case FiltrarTextoAno(t, y) => MatchTexto(f, t) && MatchAno(f, y)
    case FiltrarEstrelasAno(s, y) => MatchEstrelas(f, s) && MatchAno(f, y)
    case FiltrarTexto(t) => MatchTexto(f, t)
    case FiltrarEstrelas(s) => MatchEstrelas(f, s)
    case FiltrarAno(y) => MatchAno(f, y.value)
  }

  /** The criteria a query is bound to, as (text pattern, stars, year); None where it takes none. */
  function Args(q: Query): (Option<string>, Option<Int32>, Option<Int32>) {
    match q
    case FiltrarTextoEstrelasAno(t, s, y) => (Some(t), Some(s), Some(y))
    case FiltrarTextoEstrelas(t, s) => (Some(t), Some(s), None)
    case FiltrarTextoAno(t, y) => (Some(t), None, Some(y))
    case FiltrarEstrelasAno(s, y) => (None, Some(s), Some(y))
    case FiltrarTexto(t) => (Some(t), None, None)
    case FiltrarEstrelas(s) => (None, Some(s), None)
    case FiltrarAno(y) => (None, None, y)
  }

  /** A query is determined by the criteria it is bound to. */
  lemma ArgsInjective(q1: Query, q2: Query)
    requires Args(q1) == Args(q2)
    ensures q1 == q2
  {
  }

  /** The conjunction of the criteria present in `args`. */
  predicate Atende(f: Filme, args: (Option<string>, Option<Int32>, Option<Int32>)) {
    && (args.0.Some? ==> MatchTexto(f, args.0.value))
    && (args.1.Some? ==> f.estrelas == args.1)
    && (args.2.Some? ==> f.ano == args.2)
  }

  /** The result of running a query: the stored records that meet every criterion it is bound to. */
  function Run(store: Store, q: Query): (r: set<Filme>)
    requires Interpretado(q)
    ensures r <= store.Values
    ensures forall f :: f in r <==> f in store.Values && Atende(f, Args(q))
  {
    set f | f in store.Values && Where(q, f)
  }

  lemma MatchTextoCampos(f: Filme, padrao: string)
    ensures MatchTexto(f, padrao) <==> exists c :: Buscado(c) && LikeCampo(Texto(f, c), padrao)
  {
    if MatchTexto(f, padrao) {
      if LikeCampo(f.titulo, padrao) {
        assert Buscado(Titulo) && LikeCampo(Texto(f, Titulo), padrao);
      } else if LikeCampo(f.tituloOriginal, padrao) {
        assert Buscado(TituloOriginal) && LikeCampo(Texto(f, TituloOriginal), padrao);
      } else if LikeCampo(f.direcao, padrao) {
        assert Buscado(Direcao) && LikeCampo(Texto(f, Direcao), padrao);
      } else if LikeCampo(f.roteiro, padrao) {
        assert Buscado(Roteiro) && LikeCampo(Texto(f, Roteiro), padrao);
      } else if LikeCampo(f.elenco, padrao) {
        assert Buscado(Elenco) && LikeCampo(Texto(f, Elenco), padrao);
      } else {
        assert Buscado(Sinopse) && LikeCampo(Texto(f, Sinopse), padrao);
      }
    }
  }

  /** posterUrl never takes part in the text condition. */
  lemma PosterUrlNaoBuscado(f: Filme, url: Option<string>, padrao: string)
    ensures MatchTexto(f.(posterUrl := url), padrao) == MatchTexto(f, padrao)
  {
  }

  /** '%' and '_' are not letters, so upper-casing neither adds nor removes a wildcard. */
  lemma ToUpperCaseLiteral(t: string)
    ensures Literal(ToUpperCase(t)) <==> Literal(t)
  {
    var u := ToUpperCase(t);
    forall k | 0 <= k < |t|
      ensures (u[k] != '%' && u[k] != '_') <==> (t[k] != '%' && t[k] != '_')
    {
    }
  }

  /**
    With a pattern `%T%` where T is upper-case text free of wildcards, a record
    matches exactly when T occurs in one of the six searched fields, upper-cased;
    a null field contributes nothing.
   */
  lemma MatchTextoContains(f: Filme, t: string)
    requires Literal(t)
    ensures MatchTexto(f, "%" + t + "%") <==>
      exists c :: Buscado(c) && Texto(f, c).Some? && Contains(ToUpperCase(Texto(f, c).value), t)
  {
    MatchTextoCampos(f, "%" + t + "%");
    forall c | Texto(f, c).Some?
      ensures LikeCampo(Texto(f, c), "%" + t + "%") <==> Contains(ToUpperCase(Texto(f, c).value), t)
    {
      LikeContains(ToUpperCase(Texto(f, c).value), t);
    }
  }

  /** Each query that combines criteria is the intersection of the single-criterion queries. */
  lemma Conjuncao(store: Store, t: string, s: Int32, y: Int32)
    ensures Run(store, FiltrarTextoEstrelasAno(t, s, y))
         == Run(store, FiltrarTexto(t)) * Run(store, FiltrarEstrelas(s)) * Run(store, FiltrarAno(Some(y)))
    ensures Run(store, FiltrarTextoEstrelas(t, s)) == Run(store, FiltrarTexto(t)) * Run(store, FiltrarEstrelas(s))
    ensures Run(store, FiltrarTextoAno(t, y)) == Run(store, FiltrarTexto(t)) * Run(store, FiltrarAno(Some(y)))
    ensures Run(store, FiltrarEstrelasAno(s, y)) == Run(store, FiltrarEstrelas(s)) * Run(store, FiltrarAno(Some(y)))
  {
  }

  /** Adding a criterion can only narrow the result. */
  lemma Estreitamento(store: Store, t: string, s: Int32, y: Int32)
    ensures Run(store, FiltrarTextoEstrelasAno(t, s, y)) <= Run(store, FiltrarTextoEstrelas(t, s))
    ensures Run(store, FiltrarTextoEstrelasAno(t, s, y)) <= Run(store, FiltrarTextoAno(t, y))
    ensures Run(store, FiltrarTextoEstrelasAno(t, s, y)) <= Run(store, FiltrarEstrelasAno(s, y))
    ensures Run(store, FiltrarTextoEstrelas(t, s)) <= Run(store, FiltrarTexto(t))
    ensures Run(store, FiltrarTextoEstrelas(t, s)) <= Run(store, FiltrarEstrelas(s))
    ensures Run(store, FiltrarTextoAno(t, y)) <= Run(store, FiltrarTexto(t))
    ensures Run(store, FiltrarTextoAno(t, y)) <= Run(store, FiltrarAno(Some(y)))
    ensures Run(store, FiltrarEstrelasAno(s, y)) <= Run(store, FiltrarEstrelas(s))
    ensures Run(store, FiltrarEstrelasAno(s, y)) <= Run(store, FiltrarAno(Some(y)))
  {
    Conjuncao(store, t, s, y);
  }

}
