/** Worked scenarios of the service on concrete records. */
module Exemplos {
  import opened Optional
  import opened JavaString
  import opened SqlLike
  import opened Filmes
  import opened FilmeRepository
  import opened FilmeController

  function Vazio(): Filme {
    Filme(None, None, None, None, None, None, None, None, None, None)
  }

  function Matrix(): Filme {
    Vazio().(id := Some(1), titulo := Some("Matrix"), estrelas := Some(5), ano := Some(1999))
  }

  function Amelie(): Filme {
    Vazio().(id := Some(2), titulo := Some("Amelie"), estrelas := Some(4), ano := Some(2001))
  }

  function Catalogo(): Store {
    map[1 := Matrix(), 2 := Amelie()]
  }

  lemma CatalogoValores()
    ensures Catalogo().Values == {Matrix(), Amelie()}
  {
    var c := Catalogo();
    assert c[1] == Matrix() && c[2] == Amelie();
    forall v | v in c.Values
      ensures v == Matrix() || v == Amelie()
    {
      var k :| k in c && c[k] == v;
    }
  }

  /** Of a two-record catalogue, a result holding one record and not the other is that record alone. */
  lemma Unitario(r: set<Filme>, sim: Filme, nao: Filme)
    requires r <= {sim, nao} && sim in r && nao !in r
    ensures r == {sim}
  {
  }

  lemma UpperAmelie()
    ensures ToUpperCase("amelie") == "AMELIE"
    ensures ToUpperCase("Amelie") == "AMELIE"
    ensures ToUpperCase("Matrix") == "MATRIX"
  {
  }

  /** Stars 5 and year 1999 select exactly the Matrix record. */
  lemma FiltroEstrelasAno()
    ensures Filtrar(Catalogo(), None, Some(5), Some(1999)) == Some({Matrix()})
  {
    var r := Filtrar(Catalogo(), None, Some(5), Some(1999));
    CatalogoValores();
    assert Matrix() in r.value;
    assert Amelie() !in r.value;
    Unitario(r.value, Matrix(), Amelie());
  }

  lemma TextoAmelie()
    ensures TemTexto(Some("amelie"))
    ensures Padrao("amelie") == "%AMELIE%"
  {
    var t := "amelie";
    assert !Blank(t[0]);
    UpperAmelie();
  }

  lemma AmelieCasa()
    ensures MatchTexto(Amelie(), "%AMELIE%")
  {
    var t := "AMELIE";
    UpperAmelie();
    assert Literal(t);
    assert "%AMELIE%" == "%" + t + "%";
    MatchTextoContains(Amelie(), t);
    assert t <= ToUpperCase("Amelie")[0..];
    assert Buscado(Titulo) && Texto(Amelie(), Titulo).Some? && Contains(ToUpperCase(Texto(Amelie(), Titulo).value), t);
  }

  lemma MatrixNaoCasa()
    ensures !MatchTexto(Matrix(), "%AMELIE%")
  {
    var t := "AMELIE";
    UpperAmelie();
    assert Literal(t);
    assert "%AMELIE%" == "%" + t + "%";
    MatchTextoContains(Matrix(), t);
    forall i | 0 <= i <= 6
      ensures !(t <= "MATRIX"[i..])
    {
      if i == 0 {
        assert "MATRIX"[0..][0] == 'M';
      }
    }
  }

  /** The text "amelie" finds the Amelie record and not the Matrix record. */
  lemma FiltroTexto()
    ensures Filtrar(Catalogo(), Some("amelie"), None, None) == Some({Amelie()})
  {
    FiltroTextoEm(Catalogo(), "amelie");
  }

  /**
    The proof of FiltroTexto with the store and the text held abstract, so the
    verifier does not evaluate trim() and `like` on the literals themselves.
   */
  lemma FiltroTextoEm(store: Store, t: string)
    requires store == Catalogo() && t == "amelie"
    ensures Filtrar(store, Some(t), None, None) == Some({Amelie()})
  {
    TextoAmelie();
    AmelieCasa();
    MatrixNaoCasa();
    CatalogoValores();
    var r := Filtrar(store, Some(t), None, None);
    assert Amelie() in r.value;
    assert Matrix() !in r.value;
    Unitario(r.value, Amelie(), Matrix());
  }

  /** With no criteria the call falls through to the year query with a null year. */
  lemma FiltroSemCriterios()
    ensures Selecionar(None, None, None) == FiltrarAno(None)
    ensures Filtrar(Catalogo(), None, None, None).None?
  {
  }

  lemma UpperGodfather()
    ensures ToUpperCase("godfather") == "GODFATHER"
    ensures ToUpperCase("The Godfather") == "THE GODFATHER"
  {
  }

  /** A wildcard-free text found in the upper-cased title is enough for the text condition. */
  lemma CasaPeloTitulo(f: Filme, t: string)
    requires Literal(t) && f.titulo.Some? && Contains(ToUpperCase(f.titulo.value), t)
    ensures MatchTexto(f, "%" + t + "%")
  {
    MatchTextoContains(f, t);
    assert Buscado(Titulo) && Texto(f, Titulo) == f.titulo;
  }

  /** "godfather" matches a record titled "The Godfather", case-insensitively. */
  lemma FiltroGodfather(f: Filme)
    requires f.titulo == Some("The Godfather")
    ensures MatchTexto(f, Padrao("godfather"))
  {
    var t := ToUpperCase("godfather");
    UpperGodfather();
    assert t <= ToUpperCase("The Godfather")[4..];
    CasaPeloTitulo(f, t);
  }

  /** A patched title replaces the old one; every other field is kept. */
  lemma AtualizacaoTitulo(existente: Filme)
    requires existente.titulo == Some("A")
    ensures Merge(existente, Vazio().(titulo := Some("B")), 7) == existente.(id := Some(7), titulo := Some("B"))
  {
  }

  /** Creating a record with a client id fails. */
  lemma InsercaoComId(store: Store)
    requires 3 !in store
    ensures Inserir(store, Vazio().(id := Some(5), titulo := Some("X")), 3) == Err(IdInformado)
  {
  }

}
