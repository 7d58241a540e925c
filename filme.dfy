/**
  The `Filme` entity: a generated integer key and nine descriptive fields, every
  one of them a nullable Java reference (String or Integer).
 */
module Filmes {
  import opened Optional

  /** java.lang.Integer values; no field adds a range check of its own. */
  type Int32 = x: int | -0x8000_0000 <= x < 0x8000_0000

  /** The record, fields in declaration order; datatype equality is Lombok's field-wise equals. */
  datatype Filme = Filme(
    id: Option<Int32>,
    titulo: Option<string>,
    tituloOriginal: Option<string>,
    direcao: Option<string>,
    roteiro: Option<string>,
    elenco: Option<string>,
    sinopse: Option<string>,
    posterUrl: Option<string>,
    estrelas: Option<Int32>,
    ano: Option<Int32>)

  /** The seven String-valued descriptive fields. */
  datatype CampoTexto = Titulo | TituloOriginal | Direcao | Roteiro | Elenco | Sinopse | PosterUrl

  /** The two Integer-valued descriptive fields. */
  datatype CampoNumero = Estrelas | Ano

  /** The Lombok getter of a String field. */
  function Texto(f: Filme, c: CampoTexto): Option<string> {
    match c
    case Titulo => f.titulo
    case TituloOriginal => f.tituloOriginal
    case Direcao => f.direcao
    case Roteiro => f.roteiro
    case Elenco => f.elenco
    case Sinopse => f.sinopse
    case PosterUrl => f.posterUrl
  }

  /** The Lombok getter of an Integer field. */
  function Numero(f: Filme, c: CampoNumero): Option<Int32> {
    match c
    case Estrelas => f.estrelas
    case Ano => f.ano
  }

  /** A record is its id and its nine getters: two records are equal exactly when all ten agree. */
  lemma Extensionality(f: Filme, g: Filme)
    ensures f == g <==>
      && f.id == g.id
      && (forall c :: Texto(f, c) == Texto(g, c))
      && (forall c :: Numero(f, c) == Numero(g, c))
  {
    if && f.id == g.id
       && (forall c :: Texto(f, c) == Texto(g, c))
       && (forall c :: Numero(f, c) == Numero(g, c))
    {
      assert Texto(f, Titulo) == Texto(g, Titulo);
      assert Texto(f, TituloOriginal) == Texto(g, TituloOriginal);
      assert Texto(f, Direcao) == Texto(g, Direcao);
      assert Texto(f, Roteiro) == Texto(g, Roteiro);
      assert Texto(f, Elenco) == Texto(g, Elenco);
      assert Texto(f, Sinopse) == Texto(g, Sinopse);
      assert Texto(f, PosterUrl) == Texto(g, PosterUrl);
      assert Numero(f, Estrelas) == Numero(g, Estrelas);
      assert Numero(f, Ano) == Numero(g, Ano);
    }
  }

  /**
    The same record as a mutable object, the shape the persistence layer hands
    out: its Lombok setters are plain field assignments.
   */
  class FilmeObj {
    var id: Option<Int32>
    var titulo: Option<string>
    var tituloOriginal: Option<string>
    var direcao: Option<string>
    var roteiro: Option<string>
    var elenco: Option<string>
    var sinopse: Option<string>
    var posterUrl: Option<string>
    var estrelas: Option<Int32>
    var ano: Option<Int32>

    /** The record the object currently holds. */
    function Value(): Filme
      reads this
    {
      Filme(id, titulo, tituloOriginal, direcao, roteiro, elenco, sinopse, posterUrl, estrelas, ano)
    }

    constructor (f: Filme)
      ensures Value() == f
    {
      id := f.id;
      titulo := f.titulo;
      tituloOriginal := f.tituloOriginal;
      direcao := f.direcao;
      roteiro := f.roteiro;
      elenco := f.elenco;
      sinopse := f.sinopse;
      posterUrl := f.posterUrl;
      estrelas := f.estrelas;
      ano := f.ano;
    }
  }

}
