/** Rows of the uploaded contact spreadsheet, the contact-type lookup and the
    mapping of one row to the JSON payload that the contacts API receives
    (CriarContatos in app.py). Everything here is pure. */
module Contacts {

  datatype Option<+T> = None | Some(value: T)

  /** A present spreadsheet value: text or a whole number. */
  datatype Scalar = Str(s: string) | Num(n: int)

  /** One cell as the table reader yields it: Python's None, pandas' NaN
      marker for an empty cell, or a present value. */
  datatype Cell = Null | NaN | Val(v: Scalar)

  /** pandas.isna: both None and NaN count as missing. */
  predicate IsMissing(c: Cell) {
    c.Null? || c.NaN?
  }

  /** Python truthiness of a cell: None, "" and 0 are false; NaN is true. */
  predicate Truthy(c: Cell) {
    match c
    case Null => false
    case NaN => true
    case Val(Str(s)) => s != ""
    case Val(Num(n)) => n != 0
  }

  /** One spreadsheet row; one field per column the import reads. */
  datatype Row = Row(
    nome: Cell, codigo: Cell, situacao: Cell, numeroDocumento: Cell,
    telefone: Cell, celular: Cell, fantasia: Cell, tipo: Cell,
    indicadorIe: Cell, ie: Cell, rg: Cell, orgaoEmissor: Cell, email: Cell,
    enderecoGeral: Cell, cepGeral: Cell, bairroGeral: Cell, cidadeGeral: Cell,
    ufGeral: Cell, numeroGeral: Cell, complementoGeral: Cell,
    enderecoCobranca: Cell, cepCobranca: Cell, bairroCobranca: Cell,
    cidadeCobranca: Cell, ufCobranca: Cell, numeroCobranca: Cell,
    complementoCobranca: Cell,
    dataNascimento: Cell, sexo: Cell, naturalidade: Cell,
    tipoContato: Cell)

  /** A contact type as the API lists it. */
  datatype ContactType = ContactType(id: int, descricao: string)

  datatype Address = Address(
    endereco: Scalar, cep: Scalar, bairro: Scalar, municipio: Scalar,
    uf: Scalar, numero: Scalar, complemento: Scalar)

  datatype Addresses = Addresses(geral: Address, cobranca: Address)

  datatype AdditionalData = AdditionalData(dataNascimento: Scalar, sexo: Scalar, naturalidade: Scalar)

  /** An entry of `tiposContato`: a missing id is JSON null. */
  datatype TypeRef = TypeRef(id: Option<int>, descricao: Cell)

  datatype Payload = Payload(
    nome: Scalar, codigo: Scalar, situacao: Scalar, numeroDocumento: Scalar,
    telefone: Scalar, celular: Scalar, fantasia: Scalar, tipo: Scalar,
    indicadorIe: Scalar, ie: Scalar, rg: Scalar, orgaoEmissor: Scalar, email: Scalar,
    endereco: Addresses,
    dadosAdicionais: AdditionalData,
    tiposContato: seq<TypeRef>)

  /** check_value: a missing cell becomes the empty string; any present
      value is passed on as it is, with no trimming or conversion. */
  function CheckValue(c: Cell): (r: Scalar)
    ensures IsMissing(c) ==> r == Str("")
    ensures Val(r) == c || IsMissing(c)
  {
    if IsMissing(c) then Str("") else c.v
  }

  /** The description dictionary, built left to right so that a later entry
      with the same description overwrites an earlier one. */
  function BuildLookup(types: seq<ContactType>): (lookup: map<string, int>)
    ensures lookup.Keys == set i | 0 <= i < |types| :: types[i].descricao
  {
    if types == [] then map[]
    else
      var init := types[..|types| - 1];
      var last := types[|types| - 1];
      var prev := BuildLookup(init);
      assert prev.Keys == set i | 0 <= i < |init| :: init[i].descricao;
      assert forall i :: 0 <= i < |init| ==> init[i] == types[i];
      prev[last.descricao := last.id]
  }

  /** `row['tipoContato'] or ""`. */
  function OrEmpty(c: Cell): (d: Cell)
    ensures Truthy(c) ==> d == c
    ensures !Truthy(c) ==> d == Val(Str(""))
  {
    if Truthy(c) then c else Val(Str(""))
  }

  /** `dict.get(description, None)`: only a text description can equal a key. */
  function TypeIdOf(lookup: map<string, int>, d: Cell): (id: Option<int>)
    ensures id.Some? <==> d.Val? && d.v.Str? && d.v.s in lookup
    ensures id.Some? ==> id.value == lookup[d.v.s]
  {
    if d.Val? && d.v.Str? && d.v.s in lookup then Some(lookup[d.v.s]) else None
  }

  /** One address block: each of its seven fields is the matching cell
      passed through check_value, in the same order. */
  function MapAddress(endereco: Cell, cep: Cell, bairro: Cell, cidade: Cell,
                      uf: Cell, numero: Cell, complemento: Cell): (a: Address)
    ensures AddressFields(a) == CheckAll([endereco, cep, bairro, cidade, uf, numero, complemento])
  {
    Address(CheckValue(endereco), CheckValue(cep), CheckValue(bairro),
            CheckValue(cidade), CheckValue(uf), CheckValue(numero),
            CheckValue(complemento))
  }

  /** The payload built for one row, given the shared description lookup.
      `tiposContato` is a single entry whose description is the row's own
      when truthy and "" otherwise, and which has an id only for a text
      description; `endereco.geral` comes from the *Geral columns and
      `endereco.cobranca` from the *Cobranca columns. */
  function MapRow(lookup: map<string, int>, row: Row): (p: Payload)
    ensures |p.tiposContato| == 1
    ensures Truthy(row.tipoContato) ==> p.tiposContato[0].descricao == row.tipoContato
    ensures !Truthy(row.tipoContato) ==> p.tiposContato[0].descricao == Val(Str(""))
    ensures p.tiposContato[0].id.Some? ==> p.tiposContato[0].descricao.Val?
    ensures AddressFields(p.endereco.geral)
            == CheckAll([row.enderecoGeral, row.cepGeral, row.bairroGeral, row.cidadeGeral,
                         row.ufGeral, row.numeroGeral, row.complementoGeral])
    ensures AddressFields(p.endereco.cobranca)
            == CheckAll([row.enderecoCobranca, row.cepCobranca, row.bairroCobranca,
                         row.cidadeCobranca, row.ufCobranca, row.numeroCobranca,
                         row.complementoCobranca])
  {
    var descricao := OrEmpty(row.tipoContato);
    Payload(
      CheckValue(row.nome), CheckValue(row.codigo), CheckValue(row.situacao),
      CheckValue(row.numeroDocumento), CheckValue(row.telefone),
      CheckValue(row.celular), CheckValue(row.fantasia), CheckValue(row.tipo),
      CheckValue(row.indicadorIe), CheckValue(row.ie), CheckValue(row.rg),
      CheckValue(row.orgaoEmissor), CheckValue(row.email),
      Addresses(
        MapAddress(row.enderecoGeral, row.cepGeral, row.bairroGeral, row.cidadeGeral,
                   row.ufGeral, row.numeroGeral, row.complementoGeral),
        MapAddress(row.enderecoCobranca, row.cepCobranca, row.bairroCobranca,
                   row.cidadeCobranca, row.ufCobranca, row.numeroCobranca,
                   row.complementoCobranca)),
      AdditionalData(CheckValue(row.dataNascimento), CheckValue(row.sexo),
                     CheckValue(row.naturalidade)),
      [TypeRef(TypeIdOf(lookup, descricao), descricao)])
  }

  /** The payloads of a whole table, in row order, under one lookup. */
  function MapRows(lookup: map<string, int>, rows: seq<Row>): (ps: seq<Payload>)
    ensures |ps| == |rows|
  {
    MapAll(RowMapper(lookup), rows)
  }

  /** MapRow with its lookup fixed, as a function value. */
  function RowMapper(lookup: map<string, int>): Row -> Payload
  {
    row => MapRow(lookup, row)
  }

  /** `f` applied to every element of `xs`, in order. */
  function MapAll<T, U>(f: T -> U, xs: seq<T>): (ys: seq<U>)
    ensures |ys| == |xs|
  {
    seq(|xs|, k requires 0 <= k < |xs| => f(xs[k]))
  }

  /** Mapping a prefix and then the slice after it gives the mapping of
      the longer prefix. */
  lemma MapAllAppend<T, U>(f: T -> U, xs: seq<T>, start: nat, stop: nat)
    requires start <= stop <= |xs|
    ensures MapAll(f, xs[..start]) + MapAll(f, xs[start..stop]) == MapAll(f, xs[..stop])
  {
    assert forall k :: 0 <= k < start ==> xs[..stop][k] == xs[..start][k];
    assert forall k :: start <= k < stop ==> xs[..stop][k] == xs[start..stop][k - start];
  }

  /** The scalar columns of a row, in the order of Fields below:
      column i feeds payload field i. */
  function Columns(row: Row): seq<Cell>
  {
    IdentityColumns(row)
    + [row.enderecoGeral, row.cepGeral, row.bairroGeral, row.cidadeGeral,
       row.ufGeral, row.numeroGeral, row.complementoGeral]
    + [row.enderecoCobranca, row.cepCobranca, row.bairroCobranca,
       row.cidadeCobranca, row.ufCobranca, row.numeroCobranca,
       row.complementoCobranca]
    + [row.dataNascimento, row.sexo, row.naturalidade]
  }

  function IdentityColumns(row: Row): seq<Cell>
  {
    [row.nome, row.codigo, row.situacao, row.numeroDocumento, row.telefone,
     row.celular, row.fantasia, row.tipo, row.indicadorIe, row.ie, row.rg,
     row.orgaoEmissor, row.email]
  }

  /** Every scalar field of a payload: the flat identity fields, the seven
      fields of `endereco.geral` and of `endereco.cobranca`, and the three
      fields of `dadosAdicionais`. */
  function Fields(p: Payload): seq<Scalar>
  {
    IdentityFields(p)
    + AddressFields(p.endereco.geral)
    + AddressFields(p.endereco.cobranca)
    + [p.dadosAdicionais.dataNascimento, p.dadosAdicionais.sexo,
       p.dadosAdicionais.naturalidade]
  }

  function IdentityFields(p: Payload): seq<Scalar>
  {
    [p.nome, p.codigo, p.situacao, p.numeroDocumento, p.telefone,
     p.celular, p.fantasia, p.tipo, p.indicadorIe, p.ie, p.rg,
     p.orgaoEmissor, p.email]
  }

  function AddressFields(a: Address): seq<Scalar>
  {
    [a.endereco, a.cep, a.bairro, a.municipio, a.uf, a.numero, a.complemento]
  }

  /** check_value applied to each cell of a sequence. */
  function CheckAll(cs: seq<Cell>): (r: seq<Scalar>)
    ensures |r| == |cs|
  {
    seq(|cs|, i requires 0 <= i < |cs| => CheckValue(cs[i]))
  }

  const ScalarFieldCount: nat := 30

  /** Passing a value through check_value twice changes nothing more. */
  lemma CheckValueIdempotent(c: Cell)
    ensures CheckValue(Val(CheckValue(c))) == CheckValue(c)
  {
  }

  /** A field comes out blank exactly when its cell was missing or blank. */
  lemma CheckValueBlank(c: Cell)
    ensures CheckValue(c) == Str("") <==> IsMissing(c) || c == Val(Str(""))
  {
  }

  /** check_value over a concatenation is the concatenation of the parts. */
  lemma CheckAllAppend(a: seq<Cell>, b: seq<Cell>)
    ensures CheckAll(a + b) == CheckAll(a) + CheckAll(b)
  {
    assert forall i :: 0 <= i < |a| ==> (a + b)[i] == a[i];
    assert forall i :: |a| <= i < |a| + |b| ==> (a + b)[i] == b[i - |a|];
  }

  /** The thirteen flat identity fields are their columns passed through
      check_value. */
  lemma MapRowIdentityFields(lookup: map<string, int>, row: Row)
    ensures IdentityFields(MapRow(lookup, row)) == CheckAll(IdentityColumns(row))
  {
    IdentityColumnsChecked(row);
  }

  lemma IdentityColumnsChecked(row: Row)
    ensures CheckAll(IdentityColumns(row)) == [CheckValue(row.nome), CheckValue(row.codigo),
      CheckValue(row.situacao), CheckValue(row.numeroDocumento), CheckValue(row.telefone),
      CheckValue(row.celular), CheckValue(row.fantasia), CheckValue(row.tipo),
      CheckValue(row.indicadorIe), CheckValue(row.ie), CheckValue(row.rg),
      CheckValue(row.orgaoEmissor), CheckValue(row.email)]
  {
    var front := [row.nome, row.codigo, row.situacao, row.numeroDocumento, row.telefone,
                  row.celular];
    var back := [row.fantasia, row.tipo, row.indicadorIe, row.ie, row.rg,
                 row.orgaoEmissor, row.email];
    assert IdentityColumns(row) == front + back;
    assert CheckAll(front) == [CheckValue(row.nome), CheckValue(row.codigo),
      CheckValue(row.situacao), CheckValue(row.numeroDocumento), CheckValue(row.telefone),
      CheckValue(row.celular)];
    assert CheckAll(back) == [CheckValue(row.fantasia), CheckValue(row.tipo),
      CheckValue(row.indicadorIe), CheckValue(row.ie), CheckValue(row.rg),
      CheckValue(row.orgaoEmissor), CheckValue(row.email)];
    CheckAllAppend(front, back);
  }

  /** Every scalar payload field is its column passed through check_value. */
  lemma MapRowFields(lookup: map<string, int>, row: Row)
    ensures Fields(MapRow(lookup, row)) == CheckAll(Columns(row))
    ensures |Columns(row)| == ScalarFieldCount
  {
    var p := MapRow(lookup, row);
    var ids := IdentityColumns(row);
    var geral := [row.enderecoGeral, row.cepGeral, row.bairroGeral, row.cidadeGeral,
                  row.ufGeral, row.numeroGeral, row.complementoGeral];
    var cobranca := [row.enderecoCobranca, row.cepCobranca, row.bairroCobranca,
                     row.cidadeCobranca, row.ufCobranca, row.numeroCobranca,
                     row.complementoCobranca];
    var extra := [row.dataNascimento, row.sexo, row.naturalidade];
    MapRowIdentityFields(lookup, row);
    assert [p.dadosAdicionais.dataNascimento, p.dadosAdicionais.sexo,
            p.dadosAdicionais.naturalidade] == CheckAll(extra);
    CheckAllAppend(ids, geral);
    CheckAllAppend(ids + geral, cobranca);
    CheckAllAppend(ids + geral + cobranca, extra);
  }

  /** A missing cell is sent as "", never as null or NaN; a present cell is
      sent unchanged. */
  lemma MapRowMissingBecomesBlank(lookup: map<string, int>, row: Row, i: nat)
    requires i < ScalarFieldCount
    ensures |Fields(MapRow(lookup, row))| == |Columns(row)| == ScalarFieldCount
    ensures IsMissing(Columns(row)[i]) ==> Fields(MapRow(lookup, row))[i] == Str("")
    ensures !IsMissing(Columns(row)[i]) ==> Val(Fields(MapRow(lookup, row))[i]) == Columns(row)[i]
  {
    MapRowFields(lookup, row);
  }

  /** When no scalar cell of a row is missing, the payload gives the row's
      cells back: the mapping loses nothing. */
  lemma MapRowLossless(lookup: map<string, int>, row: Row)
    requires forall i :: 0 <= i < |Columns(row)| ==> !IsMissing(Columns(row)[i])
    ensures Columns(row) == seq(ScalarFieldCount, i requires 0 <= i < ScalarFieldCount =>
                                  Val(Fields(MapRow(lookup, row))[i]))
  {
    MapRowFields(lookup, row);
  }

  /** `tiposContato` is one entry; its description is the row's own when that
      is truthy and "" otherwise, and its id is the looked-up one or null. */
  lemma MapRowTypeEntry(lookup: map<string, int>, row: Row)
    ensures |MapRow(lookup, row).tiposContato| == 1
    ensures var t := MapRow(lookup, row).tiposContato[0];
            && (Truthy(row.tipoContato) ==> t.descricao == row.tipoContato)
            && (!Truthy(row.tipoContato) ==> t.descricao == Val(Str("")))
            && (t.id.Some? <==> t.descricao.Val? && t.descricao.v.Str? && t.descricao.v.s in lookup)
            && (t.id.Some? ==> t.id.value == lookup[t.descricao.v.s])
  {
  }

  /** The lookup knows exactly the descriptions listed, and gives for each
      the id of its LAST occurrence in the list. */
  lemma {:induction false} LookupLastWins(types: seq<ContactType>, d: string)
    ensures d in BuildLookup(types) <==> exists i :: 0 <= i < |types| && types[i].descricao == d
    ensures d in BuildLookup(types) ==>
              exists i :: && 0 <= i < |types| && types[i].descricao == d
                          && BuildLookup(types)[d] == types[i].id
                          && forall j :: i < j < |types| ==> types[j].descricao != d
  {
    if types != [] {
      var init := types[..|types| - 1];
      var last := types[|types| - 1];
      LookupLastWins(init, d);
      if last.descricao != d && d in BuildLookup(types) {
        var i :| && 0 <= i < |init| && init[i].descricao == d
                 && BuildLookup(init)[d] == init[i].id
                 && forall j :: i < j < |init| ==> init[j].descricao != d;
        assert types[i] == init[i];
        assert forall j :: i < j < |types| ==> types[j].descricao != d by {
          forall j | i < j < |types| ensures types[j].descricao != d {
            if j < |init| { assert types[j] == init[j]; }
          }
        }
      }
    }
  }

  /** The type id in a row's payload, stated against the type list itself:
      it is the id of the last listed type whose description equals the
      row's (after `or ""`), and null when no listed type has it. */
  lemma MapRowTypeId(types: seq<ContactType>, row: Row)
    ensures var t := MapRow(BuildLookup(types), row).tiposContato[0];
            && (t.id.None? <==> !(t.descricao.Val? && t.descricao.v.Str? &&
                                  exists i :: 0 <= i < |types| && types[i].descricao == t.descricao.v.s))
            && (t.id.Some? ==>
                  exists i :: && 0 <= i < |types| && types[i].descricao == t.descricao.v.s
                              && t.id.value == types[i].id
                              && forall j :: i < j < |types| ==> types[j].descricao != t.descricao.v.s)
  {
    var t := MapRow(BuildLookup(types), row).tiposContato[0];
    MapRowTypeEntry(BuildLookup(types), row);
    if t.descricao.Val? && t.descricao.v.Str? {
      LookupLastWins(types, t.descricao.v.s);
    }
  }

  /** Example: a row described "Cliente" against the list [{5, "Cliente"}]. */
  lemma ClienteExample(row: Row)
    requires row.tipoContato == Val(Str("Cliente"))
    ensures MapRow(BuildLookup([ContactType(5, "Cliente")]), row).tiposContato
            == [TypeRef(Some(5), Val(Str("Cliente")))]
  {
  }

  /** Mapping one more row of the table appends its payload and leaves the
      payloads of the rows before it as they were. */
  lemma MapRowsPrefixStep(lookup: map<string, int>, rows: seq<Row>, i: nat)
    requires i < |rows|
    ensures MapRows(lookup, rows[..i + 1]) == MapRows(lookup, rows[..i]) + [MapRow(lookup, rows[i])]
  {
    MapAllAppend(RowMapper(lookup), rows, i, i + 1);
    assert rows[i..i + 1] == [rows[i]];
  }

  /** The payloads of the rows before `start` followed by those of rows
      start .. stop-1 are the payloads of the rows before `stop`. */
  lemma MapRowsAppend(lookup: map<string, int>, rows: seq<Row>, start: nat, stop: nat)
    requires start <= stop <= |rows|
    ensures MapRows(lookup, rows[..start]) + MapRows(lookup, rows[start..stop]) == MapRows(lookup, rows[..stop])
  {
    MapAllAppend(RowMapper(lookup), rows, start, stop);
  }
}
