/**
 * The transaction loader `carregar_dados`: every export file is decoded,
 * its records are filtered and normalised one by one against the client map,
 * and the flat rows of all files are gathered in file order.
 */
module Transactions {
  import opened Wrappers
  import opened PyJson
  import opened PyText
  import opened Ingest
  import opened Clients

  /** One consolidated row (the dict appended to `dados_consolidados`). */
  datatype Row = Row(
    date: Json,           // 'data': an opaque value, parsed later
    value: PyFloat,       // 'valor'
    category: Category,   // 'tipo_base'
    clientName: string,   // 'cliente_nome'
    clientId: Json,       // 'cliente_id'
    accrediteeId: Json,   // 'credenciado_id'
    pix: int,             // 'tem_pix': 1 or 0
    adminFee: PyFloat)    // 'taxa_adm_pct'

  /** What one record does: nothing, one row, or an exception that abandons
      the rest of its file. */
  datatype RecordOutcome = Dropped | Emitted(row: Row) | Raised

  /** The date: `data_cadastro`, else `data_transacao`. */
  function DateOf(t: map<string, Json>): Json {
    Or(Get(t, "data_cadastro"), Get(t, "data_transacao"))
  }

  /** The value before conversion: `valor_bruto`, else `valor_total`, else 0. */
  function AmountOf(t: map<string, Json>): Json {
    Or(Or(Get(t, "valor_bruto"), Get(t, "valor_total")), JInt(0))
  }

  /** The fee before conversion: `taxa_administrativa_credenciado`, else 0. */
  function FeeOf(t: map<string, Json>): Json {
    Or(Get(t, "taxa_administrativa_credenciado"), JInt(0))
  }

  /** The client id: `cliente_id`, else the `id` of an embedded `cliente`
      object; a falsy `cliente_id` stays when there is no such object. */
  function ClientIdOf(t: map<string, Json>): Json {
    var id := Get(t, "cliente_id");
    var cli := Get(t, "cliente");
    if !Truthy(id) && cli.JObj? then Get(cli.fields, "id") else id
  }

  /** The client's display name, `None` when `.upper()` raises: the map's
      name when it is not empty, else the upper-cased `nome` of an embedded
      `cliente` object (default "Cliente Desconhecido"), else
      "Cliente " followed by the id. */
  function ClientNameOf(rt: Runtime, info: Option<ClientInfo>, t: map<string, Json>,
                        id: Json): Option<string>
  {
    if info.Some? && info.value.name != [] then Some(info.value.name)
    else
      var cli := Get(t, "cliente");
      if cli.JObj? then
        var nome := GetOr(cli.fields, "nome", JStr("Cliente Desconhecido"));
        if nome.JStr? then Some(Upper(nome.s)) else None
      else Some("Cliente " + PyStr(rt, id))
  }

  /** The payment method as text: `str(forma_pagamento)`, default "". */
  function PaymentOf(rt: Runtime, t: map<string, Json>): string {
    PyStr(rt, GetOr(t, "forma_pagamento", JStr("")))
  }

  /** 1 when the upper-cased payment method contains "PIX", else 0. */
  function PixFlag(rt: Runtime, t: map<string, Json>): int {
    if Contains(Upper(PaymentOf(rt, t)), "PIX") then 1 else 0
  }

  /** The map's record for a key, if any (`mapa_clientes.get(id, {})`). */
  function Lookup(mapa: map<Key, ClientInfo>, k: Key): Option<ClientInfo> {
    if k in mapa then Some(mapa[k]) else None
  }

  /** One pass of the per-record loop. */
  function Normalize(rt: Runtime, mapa: map<Key, ClientInfo>, t: Json): RecordOutcome {
    if !t.JObj? then Dropped
    else
      var f := t.fields;
      var dt := DateOf(f);
      match ToFloat(rt, AmountOf(f))
      case None => Raised
      case Some(valor) =>
        if !Truthy(dt) || AtMostZero(valor) then Dropped
        else
          var id := ClientIdOf(f);
          match KeyOf(id)
          case None => Raised
          case Some(k) =>
            var info := Lookup(mapa, k);
            var cat := if info.Some? then info.value.cat else Public;
            match ClientNameOf(rt, info, f, id)
            case None => Raised
            case Some(nome) =>
              match ToFloat(rt, FeeOf(f))
              case None => Raised
              case Some(taxa) =>
                Emitted(Row(dt, valor, cat, nome, id, Get(f, "credenciado_id"), PixFlag(rt, f), taxa))
  }

  /** The records of a decoded file: a list as it is, the `items` of an
      object, and a lone object (as the payload's `items`) as a one-record
      list; anything else has no records. */
  function TransactionItems(data: Json): seq<Json> {
    var lista := if data.JObj? then GetOr(data.fields, "items", JArr([])) else data;
    if lista.JArr? then lista.items else if lista.JObj? then [lista] else []
  }

  /** The per-record rule the loop applies, against a given client map. */
  function RuleOf(rt: Runtime, mapa: map<Key, ClientInfo>): Json -> RecordOutcome {
    t => Normalize(rt, mapa, t)
  }

  /** The rows a record loop produces from `xs` under `rule`, up to the
      first record that raises. */
  function ItemRows(rule: Json -> RecordOutcome, xs: seq<Json>): seq<Row> {
    if xs == [] then []
    else match rule(xs[0])
      case Dropped => ItemRows(rule, xs[1..])
      case Emitted(r) => [r] + ItemRows(rule, xs[1..])
      case Raised => []
  }

  /** One record's step of `ItemRows`, at position `j`. */
  lemma ItemRowsAt(rule: Json -> RecordOutcome, xs: seq<Json>, j: nat)
    requires j < |xs|
    ensures rule(xs[j]).Dropped? ==> ItemRows(rule, xs[j..]) == ItemRows(rule, xs[j + 1..])
    ensures rule(xs[j]).Emitted? ==> ItemRows(rule, xs[j..]) == [rule(xs[j]).row] + ItemRows(rule, xs[j + 1..])
    ensures rule(xs[j]).Raised? ==> ItemRows(rule, xs[j..]) == []
  {
    assert xs[j..][0] == xs[j] && xs[j..][1..] == xs[j + 1..];
  }

  /** The index of the first record that raises, or `|xs|`. */
  function FirstRaised(rule: Json -> RecordOutcome, xs: seq<Json>): (n: nat)
    ensures n <= |xs|
    ensures forall i :: 0 <= i < n ==> !rule(xs[i]).Raised?
    ensures n < |xs| ==> rule(xs[n]).Raised?
  {
    if xs == [] || rule(xs[0]).Raised? then 0
    else 1 + FirstRaised(rule, xs[1..])
  }

  /** The rows of one export file; `None` stands for a file that cannot be
      opened or read. */
  function FileRows(rt: Runtime, rule: Json -> RecordOutcome, file: Option<string>): seq<Row> {
    match file
    case None => []
    case Some(content) => ItemRows(rule, TransactionItems(BestEffort(rt, content)))
  }

  /** The per-file step of the loader under the per-record `rule`. */
  function FilesOf(rt: Runtime, rule: Json -> RecordOutcome): Option<string> -> seq<Row> {
    f => FileRows(rt, rule, f)
  }

  /** The rows of all export files under the per-file `step`, in the order
      the files are listed. */
  function AllRows(step: Option<string> -> seq<Row>, files: seq<Option<string>>): seq<Row> {
    if files == [] then [] else step(files[0]) + AllRows(step, files[1..])
  }

  /** One file's step of `AllRows`, at position `i`. */
  lemma AllRowsAt(step: Option<string> -> seq<Row>, files: seq<Option<string>>, i: nat)
    requires i < |files|
    ensures AllRows(step, files[i..]) == step(files[i]) + AllRows(step, files[i + 1..])
  {
    assert files[i..][0] == files[i] && files[i..][1..] == files[i + 1..];
  }

  /** The loader's invariant survives one file: rows gathered so far, then
      this file's rows, then the remaining files, are all the rows. */
  lemma AllRowsStep(step: Option<string> -> seq<Row>, files: seq<Option<string>>, i: nat,
                    rows: seq<Row>, fromFile: seq<Row>)
    requires i < |files| && fromFile == step(files[i])
    ensures (rows + fromFile) + AllRows(step, files[i + 1..]) == rows + AllRows(step, files[i..])
  {
    AllRowsAt(step, files, i);
  }

  /** The rows `carregar_dados` gathers before the table is built, from the
      registry's text and the export files' texts in discovery order. */
  function LoadedRows(rt: Runtime, clients: Option<string>, files: seq<Option<string>>): seq<Row> {
    AllRows(FilesOf(rt, RuleOf(rt, ClientMap(rt, clients))), files)
  }

  /** The record loop `for t in lista`: each record's outcome under `rule`
      either adds nothing (`continue`), appends one row, or raises, which
      ends the loop and keeps the rows produced so far. */
  method RecordLoop(rule: Json -> RecordOutcome, lista: seq<Json>) returns (rows: seq<Row>)
    ensures rows == ItemRows(rule, lista)
  {
    rows := [];
    assert lista[0..] == lista;
    for j := 0 to |lista|
      invariant rows + ItemRows(rule, lista[j..]) == ItemRows(rule, lista)
    {
      ItemRowsAt(rule, lista, j);
      var outcome := rule(lista[j]);
      if outcome.Raised? {
        // The exception leaves the loop; the rows kept so far stay.
        break;
      } else if outcome.Emitted? {
        rows := rows + [outcome.row];
      }
    }
  }

  /** The body of the per-file `try`: decode one file and run the record
      loop over its records with the per-record rule. */
  method LoadFile(rt: Runtime, rule: Json -> RecordOutcome, content: string)
    returns (rows: seq<Row>)
    ensures rows == FileRows(rt, rule, Some(content))
  {
    var conteudo := DecodeBestEffort(rt, content);
    var lista := TransactionItems(conteudo);
    rows := RecordLoop(rule, lista);
  }

  /** `carregar_dados` up to the table: load the client map, then each export
      file in turn; a file that cannot be read is passed over, and a file
      whose record loop raises keeps the rows it produced before that. */
  method LoadData(rt: Runtime, clients: Option<string>, files: seq<Option<string>>)
    returns (rows: seq<Row>)
    ensures rows == LoadedRows(rt, clients, files)
  {
    var mapa := LoadClientMap(rt, clients);
    rows := LoadFiles(rt, RuleOf(rt, mapa), files);
  }

  /** One pass of `for arq in arquivos`: a file that cannot be opened or
      read adds nothing (`except: continue`); any other file adds its rows.
      The rows gathered so far followed by those of the files from `i` on
      are the same before and after the pass. */
  method LoadNext(rt: Runtime, rule: Json -> RecordOutcome, files: seq<Option<string>>, i: nat,
                  rows: seq<Row>)
    returns (rows': seq<Row>)
    requires i < |files|
    ensures rows' + AllRows(FilesOf(rt, rule), files[i + 1..])
      == rows + AllRows(FilesOf(rt, rule), files[i..])
  {
    if files[i].None? {
      AllRowsStep(FilesOf(rt, rule), files, i, rows, []);
      return rows;
    }
    var fromFile := LoadFile(rt, rule, files[i].value);
    AllRowsStep(FilesOf(rt, rule), files, i, rows, fromFile);
    rows' := rows + fromFile;
  }

  /** The loop `for arq in arquivos` with the per-record `rule`: the rows of
      the files in turn. */
  method LoadFiles(rt: Runtime, rule: Json -> RecordOutcome, files: seq<Option<string>>)
    returns (rows: seq<Row>)
    ensures rows == AllRows(FilesOf(rt, rule), files)
  {
    rows := [];
    assert files[0..] == files;
    for i := 0 to |files|
      invariant rows + AllRows(FilesOf(rt, rule), files[i..]) == AllRows(FilesOf(rt, rule), files)
    {
      rows := LoadNext(rt, rule, files, i, rows);
    }
  }

  // ---------------------------------------------------------------------
  // Properties of the per-record rules

  /** The ordered fallbacks of the record's fields: the date is
      `data_cadastro` when that is truthy and `data_transacao` otherwise; the
      amount is the first truthy of `valor_bruto` and `valor_total`, else 0;
      the fee is `taxa_administrativa_credenciado` when truthy, else 0; the
      client id is `cliente_id` when truthy, else the `id` of an embedded
      `cliente` object. */
  lemma FieldFallbacks(f: map<string, Json>)
    ensures Truthy(Get(f, "data_cadastro")) ==> DateOf(f) == f["data_cadastro"]
    ensures !Truthy(Get(f, "data_cadastro")) ==> DateOf(f) == Get(f, "data_transacao")
    ensures Truthy(DateOf(f)) <==> Truthy(Get(f, "data_cadastro")) || Truthy(Get(f, "data_transacao"))
    ensures Truthy(Get(f, "valor_bruto")) ==> AmountOf(f) == f["valor_bruto"]
    ensures !Truthy(Get(f, "valor_bruto")) && Truthy(Get(f, "valor_total")) ==> AmountOf(f) == f["valor_total"]
    ensures !Truthy(Get(f, "valor_bruto")) && !Truthy(Get(f, "valor_total")) ==> AmountOf(f) == JInt(0)
    ensures Truthy(Get(f, "taxa_administrativa_credenciado")) ==> FeeOf(f) == f["taxa_administrativa_credenciado"]
    ensures !Truthy(Get(f, "taxa_administrativa_credenciado")) ==> FeeOf(f) == JInt(0)
    ensures Truthy(Get(f, "cliente_id")) ==> ClientIdOf(f) == f["cliente_id"]
    ensures !Truthy(Get(f, "cliente_id")) && Get(f, "cliente").JObj? ==>
      ClientIdOf(f) == Get(Get(f, "cliente").fields, "id")
    ensures !Truthy(Get(f, "cliente_id")) && !Get(f, "cliente").JObj? ==> ClientIdOf(f) == Get(f, "cliente_id")
  {
  }

  /** The name's fallback order: a non-empty name from the client map wins;
      otherwise an embedded `cliente` object's `nome`, upper-cased,
      "Cliente Desconhecido" upper-cased when it has none, and an exception when its
      `nome` is not a string; otherwise "Cliente " followed by the id. */
  lemma NameFallbacks(rt: Runtime, info: Option<ClientInfo>, f: map<string, Json>, id: Json)
    ensures info.Some? && info.value.name != [] ==> ClientNameOf(rt, info, f, id) == Some(info.value.name)
    ensures (info.None? || info.value.name == []) && Get(f, "cliente").JObj? ==>
      var cli := Get(f, "cliente").fields;
      && ("nome" !in cli ==> ClientNameOf(rt, info, f, id) == Some(Upper("Cliente Desconhecido")))
      && ("nome" in cli && cli["nome"].JStr? ==> ClientNameOf(rt, info, f, id) == Some(Upper(cli["nome"].s)))
      && ("nome" in cli && !cli["nome"].JStr? ==> ClientNameOf(rt, info, f, id).None?)
    ensures (info.None? || info.value.name == []) && !Get(f, "cliente").JObj? ==>
      ClientNameOf(rt, info, f, id) == Some("Cliente " + PyStr(rt, id))
  {
  }

  /** `tem_pix` is a flag, and the test ignores case: any spelling of "pix"
      inside the payment method sets it. */
  lemma PixRule(rt: Runtime, f: map<string, Json>, p: string)
    ensures PixFlag(rt, f) == 0 || PixFlag(rt, f) == 1
    ensures PixFlag(rt, f) == 1 <==> Contains(Upper(PaymentOf(rt, f)), "PIX")
    ensures Contains(PaymentOf(rt, f), p) && Upper(p) == "PIX" ==> PixFlag(rt, f) == 1
  {
    if Contains(PaymentOf(rt, f), p) && Upper(p) == "PIX" {
      UpperKeepsSubstring(PaymentOf(rt, f), p);
    }
  }

  /** A payment method absent from the record reads as "" and has no PIX. */
  lemma NoPaymentNoPix(rt: Runtime, f: map<string, Json>)
    requires "forma_pagamento" !in f
    ensures PixFlag(rt, f) == 0
  {
    assert PaymentOf(rt, f) == [];
    assert Upper([]) == [];
  }

  /** The filter: a record that is not an object, has no truthy date, or
      whose value is not greater than 0 is dropped whatever its other fields
      hold; the value is converted first, so a value that cannot be
      converted raises even when the date is missing. */
  lemma DropRule(rt: Runtime, mapa: map<Key, ClientInfo>, t: Json)
    ensures !t.JObj? ==> Normalize(rt, mapa, t) == Dropped
    ensures t.JObj? && ToFloat(rt, AmountOf(t.fields)).None? ==> Normalize(rt, mapa, t) == Raised
    ensures t.JObj? && ToFloat(rt, AmountOf(t.fields)).Some? ==>
      (Normalize(rt, mapa, t) == Dropped <==>
         !Truthy(DateOf(t.fields)) || AtMostZero(ToFloat(rt, AmountOf(t.fields)).value))
  {
  }

  /** A record with neither value field set (or both falsy) has value 0 and
      is dropped. */
  lemma NoAmountDropped(rt: Runtime, mapa: map<Key, ClientInfo>, f: map<string, Json>)
    requires !Truthy(Get(f, "valor_bruto")) && !Truthy(Get(f, "valor_total"))
    ensures Normalize(rt, mapa, JObj(f)) == Dropped
  {
    FieldFallbacks(f);
  }

  /** A record with neither date field set (or both falsy) is dropped once
      its value converts. */
  lemma NoDateDropped(rt: Runtime, mapa: map<Key, ClientInfo>, f: map<string, Json>)
    requires !Truthy(Get(f, "data_cadastro")) && !Truthy(Get(f, "data_transacao"))
    requires ToFloat(rt, AmountOf(f)).Some?
    ensures Normalize(rt, mapa, JObj(f)) == Dropped
  {
    FieldFallbacks(f);
  }

  /** The category a client id resolves to: the map's, else public. */
  function CategoryFor(mapa: map<Key, ClientInfo>, k: Key): Category {
    if k in mapa then mapa[k].cat else Public
  }

  /** A row that passes the filter: a truthy date, a value that is not at
      most 0, and a 0/1 PIX flag. */
  predicate ValidRow(r: Row) {
    Truthy(r.date) && !AtMostZero(r.value) && (r.pix == 0 || r.pix == 1)
  }

  /** What an emitted row holds, field by field, in terms of the record. */
  lemma EmittedRow(rt: Runtime, mapa: map<Key, ClientInfo>, t: Json)
    requires Normalize(rt, mapa, t).Emitted?
    ensures var r := Normalize(rt, mapa, t).row;
      && t.JObj?
      && ValidRow(r)
      && r.date == DateOf(t.fields)
      && ToFloat(rt, AmountOf(t.fields)) == Some(r.value)
      && r.clientId == ClientIdOf(t.fields)
      && KeyOf(r.clientId).Some?
      && r.category == CategoryFor(mapa, KeyOf(r.clientId).value)
      && ClientNameOf(rt, Lookup(mapa, KeyOf(r.clientId).value), t.fields, r.clientId) == Some(r.clientName)
      && r.accrediteeId == Get(t.fields, "credenciado_id")
      && r.pix == PixFlag(rt, t.fields)
      && ToFloat(rt, FeeOf(t.fields)) == Some(r.adminFee)
  {
    PixRule(rt, t.fields, []);
  }

  /** The client map decides category and name: a client found under a
      non-empty name keeps both. */
  lemma MappedClient(rt: Runtime, mapa: map<Key, ClientInfo>, t: Json)
    requires Normalize(rt, mapa, t).Emitted?
    requires KeyOf(ClientIdOf(t.fields)).value in mapa
    ensures var r := Normalize(rt, mapa, t).row;
      var info := mapa[KeyOf(ClientIdOf(t.fields)).value];
      && r.category == info.cat
      && (info.name != [] ==> r.clientName == info.name)
  {
  }

  /** An id that is missing from the map is public. */
  lemma UnmappedClient(rt: Runtime, mapa: map<Key, ClientInfo>, t: Json)
    requires Normalize(rt, mapa, t).Emitted?
    requires KeyOf(ClientIdOf(t.fields)).value !in mapa
    ensures Normalize(rt, mapa, t).row.category == Public
  {
  }

  // ---------------------------------------------------------------------
  // Properties of the loops

  /** The rows a sequence of records emits when none of them raises. */
  function Emits(rule: Json -> RecordOutcome, xs: seq<Json>): seq<Row> {
    if xs == [] then []
    else (if rule(xs[0]).Emitted? then [rule(xs[0]).row] else []) + Emits(rule, xs[1..])
  }

  lemma {:induction false} EmitsAppend(rule: Json -> RecordOutcome, xs: seq<Json>, ys: seq<Json>)
    ensures Emits(rule, xs + ys) == Emits(rule, xs) + Emits(rule, ys)
  {
    if xs == [] {
      assert xs + ys == ys;
    } else {
      assert (xs + ys)[0] == xs[0] && (xs + ys)[1..] == xs[1..] + ys;
      EmitsAppend(rule, xs[1..], ys);
      var head := if rule(xs[0]).Emitted? then [rule(xs[0]).row] else [];
      assert Emits(rule, xs + ys) == head + (Emits(rule, xs[1..]) + Emits(rule, ys));
      assert Emits(rule, xs) == head + Emits(rule, xs[1..]);
    }
  }

  /** The record loop keeps, in input order, the rows of the records before
      the first one that raises, and nothing after it. */
  lemma {:induction false} ItemRowsUpToRaise(rule: Json -> RecordOutcome, xs: seq<Json>)
    ensures ItemRows(rule, xs) == Emits(rule, xs[..FirstRaised(rule, xs)])
  {
    if xs != [] {
      var n := FirstRaised(rule, xs);
      if rule(xs[0]).Raised? {
        assert xs[..n] == [];
      } else {
        ItemRowsUpToRaise(rule, xs[1..]);
        assert xs[..n] == [xs[0]] + xs[1..][..n - 1];
        assert xs[..n][0] == xs[0] && xs[..n][1..] == xs[1..][..n - 1];
      }
    }
  }

  /** Records after a raising record are not looked at; before it, the rows
      of a concatenation are those of its parts in order. */
  lemma {:induction false} ItemRowsAppend(rule: Json -> RecordOutcome, xs: seq<Json>, ys: seq<Json>)
    ensures FirstRaised(rule, xs) == |xs| ==> ItemRows(rule, xs + ys) == ItemRows(rule, xs) + ItemRows(rule, ys)
    ensures FirstRaised(rule, xs) < |xs| ==> ItemRows(rule, xs + ys) == ItemRows(rule, xs)
  {
    if xs == [] {
      assert xs + ys == ys;
    } else {
      assert (xs + ys)[0] == xs[0] && (xs + ys)[1..] == xs[1..] + ys;
      ItemRowsAppend(rule, xs[1..], ys);
    }
  }

  /** Every row of the record loop passes the filter. */
  lemma {:induction false} ItemRowsValid(rt: Runtime, mapa: map<Key, ClientInfo>, xs: seq<Json>)
    ensures forall r | r in ItemRows(RuleOf(rt, mapa), xs) :: ValidRow(r)
  {
    if xs != [] {
      ItemRowsValid(rt, mapa, xs[1..]);
      if Normalize(rt, mapa, xs[0]).Emitted? {
        EmittedRow(rt, mapa, xs[0]);
      }
    }
  }

  /** Each file contributes its own rows, whatever happens in the others:
      the rows of a list of files are those of its parts in order. */
  lemma {:induction false} AllRowsAppend(step: Option<string> -> seq<Row>,
                                         a: seq<Option<string>>, b: seq<Option<string>>)
    ensures AllRows(step, a + b) == AllRows(step, a) + AllRows(step, b)
  {
    if a == [] {
      assert a + b == b;
    } else {
      assert (a + b)[0] == a[0] && (a + b)[1..] == a[1..] + b;
      AllRowsAppend(step, a[1..], b);
    }
  }

  /** Every row the loader gathers passes the filter. */
  lemma {:induction false} AllRowsValid(rt: Runtime, mapa: map<Key, ClientInfo>, files: seq<Option<string>>)
    ensures forall r | r in AllRows(FilesOf(rt, RuleOf(rt, mapa)), files) :: ValidRow(r)
  {
    if files != [] {
      AllRowsValid(rt, mapa, files[1..]);
      if files[0].Some? {
        ItemRowsValid(rt, mapa, TransactionItems(BestEffort(rt, files[0].value)));
      }
    }
  }

  /** The shapes a decoded file can take. */
  lemma TransactionItemsShape(data: Json)
    ensures data.JArr? ==> TransactionItems(data) == data.items
    ensures data.JObj? && "items" in data.fields && data.fields["items"].JArr? ==>
      TransactionItems(data) == data.fields["items"].items
    ensures data.JObj? && "items" in data.fields && data.fields["items"].JObj? ==>
      TransactionItems(data) == [data.fields["items"]]
    ensures data.JObj? && "items" !in data.fields ==> TransactionItems(data) == []
    ensures data.JObj? && "items" in data.fields && !data.fields["items"].JArr? && !data.fields["items"].JObj? ==>
      TransactionItems(data) == []
    ensures !data.JArr? && !data.JObj? ==> TransactionItems(data) == []
  {
  }

  /** The registry of the worked example: one client "acme" under id 1 whose
      organisation has id 4. */
  function ExampleClient(): Json {
    JObj(map["id" := JInt(1), "nome" := JStr("acme"), "organizacao" := JObj(map["id" := JInt(4)])])
  }

  /** The record of the worked example. */
  function ExampleRecord(): map<string, Json> {
    map["cliente_id" := JInt(1), "data_cadastro" := JStr("2024-03-05"),
        "valor_bruto" := JStr("150.00"), "forma_pagamento" := JStr("PIX")]
  }

  /** The client is stored as a private client named "ACME". */
  lemma ExampleClientMap(rt: Runtime, clientsText: string)
    requires rt.loads(clientsText) == Some(JArr([ExampleClient()]))
    ensures ClientMap(rt, Some(clientsText)) == map[KNum(1.0) := ClientInfo(Private, "ACME")]
  {
    var xs := [ExampleClient()];
    assert Upper("acme") == "ACME";
    assert ClientEntry(xs[0]) == Put(KNum(1.0), ClientInfo(Private, "ACME"));
    assert xs[1..] == [];
    assert FoldEntries(map[], xs) == FoldEntries(map[KNum(1.0) := ClientInfo(Private, "ACME")], []);
  }

  /** The record is emitted with the client's category and name, value 150,
      the PIX flag set and no fee. */
  lemma ExampleNormalize(rt: Runtime)
    requires rt.parseFloat("150.00") == Some(Finite(150.0))
    ensures Normalize(rt, map[KNum(1.0) := ClientInfo(Private, "ACME")], JObj(ExampleRecord()))
      == Emitted(Row(JStr("2024-03-05"), Finite(150.0), Private, "ACME", JInt(1), JNull, 1, Finite(0.0)))
  {
    var f := ExampleRecord();
    var mapa := map[KNum(1.0) := ClientInfo(Private, "ACME")];
    assert DateOf(f) == JStr("2024-03-05");
    assert ToFloat(rt, AmountOf(f)) == Some(Finite(150.0)) by {
      assert AmountOf(f) == JStr("150.00");
    }
    assert ClientIdOf(f) == JInt(1);
    assert KeyOf(JInt(1)) == Some(KNum(1.0));
    assert Lookup(mapa, KNum(1.0)) == Some(ClientInfo(Private, "ACME"));
    assert ClientNameOf(rt, Some(ClientInfo(Private, "ACME")), f, JInt(1)) == Some("ACME");
    assert ToFloat(rt, FeeOf(f)) == Some(Finite(0.0));
    assert Get(f, "credenciado_id") == JNull;
    ExamplePix(rt);
  }

  /** The example's payment method "PIX" sets the flag. */
  lemma ExamplePix(rt: Runtime)
    ensures PixFlag(rt, ExampleRecord()) == 1
  {
    assert PaymentOf(rt, ExampleRecord()) == "PIX";
    assert Upper("PIX") == "PIX";
    assert OccursAt("PIX", 0, "PIX");
  }

  /** A worked example: a registry with one private client "acme" under id 1
      and one export file with a record of client 1, dated "2024-03-05",
      valued "150.00" and paid by PIX, yields one private row for "ACME"
      with value 150 and the PIX flag set. */
  lemma OneRecordExample(rt: Runtime, clientsText: string, fileText: string)
    requires rt.loads(clientsText) == Some(JArr([ExampleClient()]))
    requires rt.loads(fileText) == Some(JArr([JObj(ExampleRecord())]))
    requires rt.parseFloat("150.00") == Some(Finite(150.0))
    ensures LoadedRows(rt, Some(clientsText), [Some(fileText)])
      == [Row(JStr("2024-03-05"), Finite(150.0), Private, "ACME", JInt(1), JNull, 1, Finite(0.0))]
  {
    var mapa := map[KNum(1.0) := ClientInfo(Private, "ACME")];
    var row := Row(JStr("2024-03-05"), Finite(150.0), Private, "ACME", JInt(1), JNull, 1, Finite(0.0));
    ExampleClientMap(rt, clientsText);
    ExampleNormalize(rt);
    var xs := [JObj(ExampleRecord())];
    assert TransactionItems(BestEffort(rt, fileText)) == xs;
    ItemRowsAt(RuleOf(rt, mapa), xs, 0);
    assert xs[1..] == [];
    assert FileRows(rt, RuleOf(rt, mapa), Some(fileText)) == [row];
    var files := [Some(fileText)];
    assert files[1..] == [];
    assert AllRows(FilesOf(rt, RuleOf(rt, mapa)), files) == [row] + AllRows(FilesOf(rt, RuleOf(rt, mapa)), []);
  }
}
