/**
 * The limits MySQL in strict mode puts on the columns Sequelize declares: `STRING` is
 * VARCHAR(255), counted in characters, and `INTEGER` is a signed 32-bit INT. A value
 * outside them makes the whole INSERT or UPDATE fail, and Sequelize reports MySQL's message.
 */
module ColumnLimits {
  import opened Wrappers

  const VarcharMax: nat := 255
  const IntMin: int := -0x8000_0000
  const IntMax: int := 0x7FFF_FFFF

  /** One value bound for a column of the statement, with the column's name. */
  datatype Column = Varchar(name: string, text: string) | Int(name: string, n: int)

  /** Whether the column accepts the value. */
  predicate Fits(c: Column) {
    match c
    case Varchar(_, s) => |s| <= VarcharMax
    case Int(_, n) => IntMin <= n <= IntMax
  }

  /** MySQL's message for a value the column refuses. */
  function Refusal(c: Column): string {
    match c
    case Varchar(name, _) => "Data too long for column '" + name + "' at row 1"
    case Int(name, _) => "Out of range value for column '" + name + "' at row 1"
  }

  /** Whether every value of the statement fits its column. */
  predicate AllFit(cs: seq<Column>) {
    forall k :: 0 <= k < |cs| ==> Fits(cs[k])
  }

  /**
   * The refusal of the statement: none when every value fits, otherwise the message for the
   * first column, in the statement's order, whose value does not.
   */
  function FirstRefusal(cs: seq<Column>): (m: Option<string>)
    ensures m.None? <==> AllFit(cs)
    ensures m.Some? ==> exists k :: 0 <= k < |cs| && !Fits(cs[k]) && AllFit(cs[..k]) && m.value == Refusal(cs[k])
  {
    if cs == [] then None
    else if !Fits(cs[0]) then
      assert AllFit(cs[..0]);
      Some(Refusal(cs[0]))
    else
      var rest := FirstRefusal(cs[1..]);
      if rest.Some? then
        var k :| 0 <= k < |cs[1..]| && !Fits(cs[1..][k]) && AllFit(cs[1..][..k]) && rest.value == Refusal(cs[1..][k]);
        assert cs[k + 1] == cs[1..][k];
        var before := cs[..k + 1];
        assert AllFit(before) by {
          forall j | 0 <= j < |before| ensures Fits(before[j]) {
            if j > 0 {
              assert before[j] == cs[1..][..k][j - 1];
            }
          }
        }
        rest
      else
        assert forall j :: 1 <= j < |cs| ==> cs[j] == cs[1..][j - 1];
        None
  }

  /** Examples: 255 characters fit a VARCHAR, 256 do not; 2147483647 fits an INT, 3000000000 does not. */
  lemma LimitExamples()
    ensures Fits(Varchar("name", seq(255, _ => 'a'))) && !Fits(Varchar("name", seq(256, _ => 'a')))
    ensures Fits(Int("price", 2147483647)) && !Fits(Int("price", 3000000000))
    ensures FirstRefusal([Varchar("name", "Tashkent"), Int("price", 3000000000)])
      == Some("Out of range value for column 'price' at row 1")
  {
    var cs := [Varchar("name", "Tashkent"), Int("price", 3000000000)];
    assert Fits(cs[0]) && !Fits(cs[1]);
    assert cs[1..] == [Int("price", 3000000000)];
    assert FirstRefusal(cs[1..]) == Some(Refusal(cs[1]));
    assert Refusal(cs[1]) == "Out of range value for column 'price' at row 1";
  }
}
