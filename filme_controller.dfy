/**
  The request handlers that carry decisions: `filtrar` picks one of the seven
  repository queries from three optional criteria, `inserir` refuses a
  client-supplied id before saving, and `atualizar` merges a sparse patch into
  the stored record. The criteria arrive already bound (null as None); the
  store is passed in and the updated store handed back.
 */
module FilmeController {
  import opened Optional
  import opened JavaString
  import opened SqlLike
  import opened Filmes
  import opened FilmeRepository

  // ---------------------------------------------------------------- filtrar

  /**
    temTexto: the text is non-null and not empty once trimmed, that is, it
    holds a character above U+0020.
   */
  function TemTexto(texto: Option<string>): (r: bool)
    ensures r <==> texto.Some? && exists k :: 0 <= k < |texto.value| && !Blank(texto.value[k])
  {
    if texto.None? then false
    else
      TrimEmptyIffBlank(texto.value);
      Trim(texto.value) != ""
  }

  /**
    The bound text parameter, built from the untrimmed text; for text without
    wildcards it makes `like` a search for the upper-cased text.
   */
  function Padrao(texto: string): (r: string)
    ensures Literal(texto) ==> forall s :: Like(s, r) <==> Contains(s, ToUpperCase(texto))
  {
    ToUpperCaseLiteral(texto);
    LikeContainsTodos(ToUpperCase(texto));
    "%" + ToUpperCase(texto) + "%"
  }

  /** Surrounding blanks survive into the pattern: trimming first would give a different one. */
  lemma PadraoNaoAparado(texto: string)
    requires Trim(texto) != texto
    ensures Padrao(texto) != Padrao(Trim(texto))
  {
    TrimShortens(texto);
    assert |Padrao(texto)| == |texto| + 2;
    assert |Padrao(Trim(texto))| == |Trim(texto)| + 2;
  }

  /**
    The decision list of `filtrar`, first match wins:
    T∧S∧Y, T∧S, T∧Y, S∧Y, T, S, and otherwise the year query, even with no year.
   */
  function Selecionar(texto: Option<string>, estrelas: Option<Int32>, ano: Option<Int32>): (q: Query)
    ensures Args(q) == (if TemTexto(texto) then Some(Padrao(texto.value)) else None, estrelas, ano)
  {
    var temTexto := TemTexto(texto);
    var temEstrelas := estrelas.Some?;
    var temAno := ano.Some?;
    if temTexto && temEstrelas && temAno then
      FiltrarTextoEstrelasAno(Padrao(texto.value), estrelas.value, ano.value)
    else if temTexto && temEstrelas then
      FiltrarTextoEstrelas(Padrao(texto.value), estrelas.value)
    else if temTexto && temAno then
      FiltrarTextoAno(Padrao(texto.value), ano.value)
    else if temEstrelas && temAno then
      FiltrarEstrelasAno(estrelas.value, ano.value)
    else if temTexto then
      FiltrarTexto(Padrao(texto.value))
    else if temEstrelas then
      FiltrarEstrelas(estrelas.value)
    else
      FiltrarAno(ano)
  }

  /** Each combination of present criteria selects one query, and no other query takes the same criteria. */
  lemma SelecionarUnico(texto: Option<string>, estrelas: Option<Int32>, ano: Option<Int32>, q: Query)
    requires Args(q) == (if TemTexto(texto) then Some(Padrao(texto.value)) else None, estrelas, ano)
    ensures q == Selecionar(texto, estrelas, ano)
  {
    ArgsInjective(q, Selecionar(texto, estrelas, ano));
  }

  /** With all three criteria absent, blank text included, control reaches the year query with a null year. */
  lemma SelecionarSemCriterios(texto: Option<string>)
    requires texto.Some? ==> forall k :: 0 <= k < |texto.value| ==> Blank(texto.value[k])
    ensures Selecionar(texto, None, None) == FiltrarAno(None)
    ensures !Interpretado(Selecionar(texto, None, None))
  {
  }

  /** Blank text is the same as no text. */
  lemma TextoEmBranco(texto: string, estrelas: Option<Int32>, ano: Option<Int32>)
    requires forall k :: 0 <= k < |texto| ==> Blank(texto[k])
    ensures Selecionar(Some(texto), estrelas, ano) == Selecionar(None, estrelas, ano)
  {
    TrimEmptyIffBlank(texto);
  }

  /**
    `filtrar`: the stored records meeting every present criterion. None stands
    for the all-absent call, whose answer is up to the store.
   */
  function Filtrar(store: Store, texto: Option<string>, estrelas: Option<Int32>, ano: Option<Int32>)
    : (r: Option<set<Filme>>)
    ensures r.None? <==> !TemTexto(texto) && estrelas.None? && ano.None?
    ensures r.Some? ==> r.value <= store.Values
    ensures r.Some? ==> forall f :: f in r.value <==>
      && f in store.Values
      && (TemTexto(texto) ==> MatchTexto(f, Padrao(texto.value)))
      && (estrelas.Some? ==> f.estrelas == estrelas)
      && (ano.Some? ==> f.ano == ano)
  {
    var q := Selecionar(texto, estrelas, ano);
    assert Interpretado(q) <==> Args(q) != (None, None, None);
    if Interpretado(q) then Some(Run(store, q)) else None
  }

  /**
    For wildcard-free text the filter is a case-insensitive substring search
    over the six searched fields, narrowed by the other present criteria.
   */
  lemma FiltrarSubstring(store: Store, texto: string, estrelas: Option<Int32>, ano: Option<Int32>, f: Filme)
    requires TemTexto(Some(texto)) && Literal(texto)
    ensures Filtrar(store, Some(texto), estrelas, ano).Some?
    ensures f in Filtrar(store, Some(texto), estrelas, ano).value <==>
      && f in store.Values
      && (exists c :: Buscado(c) && Texto(f, c).Some? && Contains(ToUpperCase(Texto(f, c).value), ToUpperCase(texto)))
      && (estrelas.Some? ==> f.estrelas == estrelas)
      && (ano.Some? ==> f.ano == ano)
  {
    ToUpperCaseLiteral(texto);
    MatchTextoContains(f, ToUpperCase(texto));
  }

  // ---------------------------------------------------------------- errors

  datatype Erro =
    | IdInformado            // an id was supplied where the store generates it
    | NaoEncontrado(id: Int32)  // no record is stored under the path id

  datatype Result<T> = Ok(value: T) | Err(erro: Erro)

  // ---------------------------------------------------------------- inserir

  /**
    `inserir`: a supplied id is refused and nothing is saved; otherwise the
    record is saved as given under the key the store generates, `novoId`.
   */
  function Inserir(store: Store, filme: Filme, novoId: Int32): (r: Result<(Store, Filme)>)
    requires novoId !in store
    ensures r.Err? <==> filme.id.Some?
    ensures r.Err? ==> r.erro == IdInformado
    ensures r.Ok? ==> var (novo, salvo) := r.value;
      && salvo.id == Some(novoId)
      && (forall c :: Texto(salvo, c) == Texto(filme, c))
      && (forall c :: Numero(salvo, c) == Numero(filme, c))
      && novo.Keys == store.Keys + {novoId}
      && novo[novoId] == salvo
      && (forall k :: k in store ==> novo[k] == store[k])
    ensures r.Ok? && Valid(store) ==> Valid(r.value.0)
  {
    if filme.id.Some? then
      Err(IdInformado)
    else
      var salvo := filme.(id := Some(novoId));
      Ok((Save(store, salvo), salvo))
  }

  // ---------------------------------------------------------------- atualizar

  /** Apply-if-present: a non-null patch value replaces the current one. */
  function Sobrepor<T>(patch: Option<T>, atual: Option<T>): Option<T> {
    if patch.Some? then patch else atual
  }

  /**
    The merge of `atualizar`: each descriptive field takes the patch value when
    that is non-null and keeps the existing one otherwise; the id becomes the
    path id whatever either record held.
   */
  function Merge(existente: Filme, patch: Filme, id: Int32): (r: Filme)
    ensures r.id == Some(id)
    ensures forall c :: Texto(r, c) == if Texto(patch, c).Some? then Texto(patch, c) else Texto(existente, c)
    ensures forall c :: Numero(r, c) == if Numero(patch, c).Some? then Numero(patch, c) else Numero(existente, c)
  {
    Filme(
      Some(id),
      Sobrepor(patch.titulo, existente.titulo),
      Sobrepor(patch.tituloOriginal, existente.tituloOriginal),
      Sobrepor(patch.direcao, existente.direcao),
      Sobrepor(patch.roteiro, existente.roteiro),
      Sobrepor(patch.elenco, existente.elenco),
      Sobrepor(patch.sinopse, existente.sinopse),
      Sobrepor(patch.posterUrl, existente.posterUrl),
      Sobrepor(patch.estrelas, existente.estrelas),
      Sobrepor(patch.ano, existente.ano))
  }

  /** The field-wise rule leaves exactly one candidate: the merge is determined by it. */
  lemma MergeUnico(existente: Filme, patch: Filme, id: Int32, g: Filme)
    requires g.id == Some(id)
    requires forall c :: Texto(g, c) == if Texto(patch, c).Some? then Texto(patch, c) else Texto(existente, c)
    requires forall c :: Numero(g, c) == if Numero(patch, c).Some? then Numero(patch, c) else Numero(existente, c)
    ensures g == Merge(existente, patch, id)
  {
    Extensionality(g, Merge(existente, patch, id));
  }

  /** A patch with every field null only sets the id. */
  lemma MergeOmissao(existente: Filme, patch: Filme, id: Int32)
    requires forall c :: Texto(patch, c).None?
    requires forall c :: Numero(patch, c).None?
    ensures Merge(existente, patch, id) == existente.(id := Some(id))
  {
    Extensionality(Merge(existente, patch, id), existente.(id := Some(id)));
  }

  /** Applying the same patch twice is applying it once. */
  lemma MergeIdempotente(existente: Filme, patch: Filme, id: Int32)
    ensures Merge(Merge(existente, patch, id), patch, id) == Merge(existente, patch, id)
  {
  }

  /**
    The nine conditional setters and the id setter of `atualizar`, run on the
    fetched object in place. Each guarded setter is one assignment through
    Sobrepor: a null patch value writes the current value back, which leaves
    the object as the skipped setter would.
   */
  method AplicarPatch(f: FilmeObj, patch: Filme, id: Int32)
    modifies f
    ensures f.Value() == Merge(old(f.Value()), patch, id)
  {
    f.titulo := Sobrepor(patch.titulo, f.titulo);
    f.tituloOriginal := Sobrepor(patch.tituloOriginal, f.tituloOriginal);
    f.direcao := Sobrepor(patch.direcao, f.direcao);
    f.roteiro := Sobrepor(patch.roteiro, f.roteiro);
    f.elenco := Sobrepor(patch.elenco, f.elenco);
    f.sinopse := Sobrepor(patch.sinopse, f.sinopse);
    f.posterUrl := Sobrepor(patch.posterUrl, f.posterUrl);
    f.estrelas := Sobrepor(patch.estrelas, f.estrelas);
    f.ano := Sobrepor(patch.ano, f.ano);
    f.id := Some(id);
  }

  /**
    `atualizar`: not-found is checked before a supplied id, neither error saves
    anything, and otherwise the merged record is saved under the path id.
   */
  method Atualizar(store: Store, id: Int32, filme: Filme) returns (novo: Store, r: Result<Filme>)
    ensures id !in store ==> r == Err(NaoEncontrado(id))
    ensures id in store && filme.id.Some? ==> r == Err(IdInformado)
    ensures id in store && filme.id.None? ==> r == Ok(Merge(store[id], filme, id))
    ensures r.Err? ==> novo == store
    ensures r.Ok? ==> novo == store[id := r.value]
    ensures novo.Keys == store.Keys
    ensures Valid(store) ==> Valid(novo)
  {
    var encontrado := FindById(store, id);
    if encontrado.None? {
      return store, Err(NaoEncontrado(id));
    }
    if filme.id.Some? {
      return store, Err(IdInformado);
    }
    var f := new FilmeObj(encontrado.value);
    AplicarPatch(f, filme, id);
    var salvo := f.Value();
    novo := Save(store, salvo);
    r := Ok(salvo);
  }

}
