/** The inline-keyboard markup the bot sends: rows of buttons, each carrying a
    label and either callback data or a URL. Labels that the source formats from
    a product are kept as their parts; float formatting is not modelled. */
module Markup {
  import opened Stock

  datatype Label =
    | Plain(text: string)
    | PriceLabel(name: string, price: real)             // f"{name} - {price} ₽"
    | StockLabel(kind: Kind, name: string, count: nat)  // f"{emoji} {name} ({count} шт.)"

  datatype Action = Callback(data: string) | Url(url: string)

  datatype Button = Button(caption: Label, action: Action)

  type Keyboard = seq<seq<Button>>

  /** The callback data of every button, row by row. */
  function CallbackData(kb: Keyboard): (r: seq<string>)
    ensures forall d :: d in r <==> exists i, j :: 0 <= i < |kb| && 0 <= j < |kb[i]| && kb[i][j].action == Callback(d)
  {
    if kb == [] then []
    else
      var rest := CallbackData(kb[1..]);
      assert forall i, j :: 1 <= i < |kb| && 0 <= j < |kb[i]| ==> kb[i][j] == kb[1..][i - 1][j];
      RowData(kb[0]) + rest
  }

  function RowData(row: seq<Button>): (r: seq<string>)
    ensures forall d :: d in r <==> exists j :: 0 <= j < |row| && row[j].action == Callback(d)
  {
    if row == [] then []
    else
      var rest := RowData(row[1..]);
      assert forall j :: 1 <= j < |row| ==> row[j] == row[1..][j - 1];
      (if row[0].action.Callback? then [row[0].action.data] else []) + rest
  }
}
