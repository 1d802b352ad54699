/**
 * The task states of the LibLib image service and their descriptions
 * (lib/tachie/liblib/types.ts).
 */
module TachieTypes {
  import opened JsText

  /** The `GenerateStatus` codes, 1 to 7 in order. */
  const Waiting := 1
  const Processing := 2
  const Generated := 3
  const Auditing := 4
  const Success := 5
  const Failed := 6
  const Timeout := 7

  predicate Known(status: int) {
    Waiting <= status <= Timeout
  }

  const UnknownPrefix := "未知状态: "

  /** `getStatusDescription`: a fixed word for each known state, the code itself otherwise. */
  function StatusDescription(status: int): (d: string)
    ensures Known(status) ==> 2 <= |d| <= 4
    ensures !Known(status) ==> d == UnknownPrefix + IntToString(status)
  {
    if status == Waiting then "等待执行"
    else if status == Processing then "执行中"
    else if status == Generated then "已生图"
    else if status == Auditing then "审核中"
    else if status == Success then "成功"
    else if status == Failed then "失败"
    else if status == Timeout then "超时"
    else UnknownPrefix + IntToString(status)
  }

  /** The codes are consecutive, from `WAITING` = 1 to `TIMEOUT` = 7. */
  lemma StatusCodes()
    ensures [Waiting, Processing, Generated, Auditing, Success, Failed, Timeout] == [1, 2, 3, 4, 5, 6, 7]
  {
  }

  /**
   * Different codes are described differently: the seven fixed words are
   * distinct, none of them looks like an unknown code's text, and unknown
   * codes print their own number.
   */
  lemma {:induction false} StatusDescriptionInjective(a: int, b: int)
    requires StatusDescription(a) == StatusDescription(b)
    ensures a == b
  {
    assert |UnknownPrefix| == 6;
    if Known(a) && Known(b) {
      var words := seq(7, i requires 0 <= i < 7 => StatusDescription(i + 1));
      assert words == ["等待执行", "执行中", "已生图", "审核中", "成功", "失败", "超时"];
      assert words[a - 1] == words[b - 1];
    } else if !Known(a) && !Known(b) {
      var p := |UnknownPrefix|;
      assert IntToString(a) == StatusDescription(a)[p..];
      assert IntToString(b) == StatusDescription(b)[p..];
      IntToStringInjective(a, b);
    }
  }
}
