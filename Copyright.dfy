/** The footer script static/scripts/copyright.js: the copyright line
    names the site's first year, 2024, alone in 2024 and as a range up to
    the current year otherwise. */
module Copyright {
  import opened Decimal

  const FirstYear := 2024

  /** The footer text for the year the browser's clock reports. */
  function CopyrightText(currentYear: int): (r: string)
    ensures |r| >= 4 && r[..4] == "2024"
    ensures r == "2024" <==> currentYear == FirstYear
    ensures currentYear != FirstYear ==> |r| > 7 && r[..7] == "2024 - " && r[7..] == IntToDecimal(currentYear)
  {
    if currentYear != FirstYear then "2024 - " + IntToDecimal(currentYear) else "2024"
  }

  /** The footer tells the year apart: different years give different lines. */
  lemma CopyrightInjective(y: int, z: int)
    requires CopyrightText(y) == CopyrightText(z)
    ensures y == z
  {
    if y != FirstYear && z != FirstYear {
      var r := CopyrightText(y);
      assert IntToDecimal(y) == r[7..] == IntToDecimal(z);
      IntToDecimalInjective(y, z);
    }
  }

  /** Any other year, earlier or later, is shown after a dash. */
  lemma CopyrightExamples()
    ensures CopyrightText(2024) == "2024"
    ensures CopyrightText(2025) == "2024 - 2025"
    ensures CopyrightText(2023) == "2024 - 2023"
  {
    assert IntToDecimal(2025) == "2025" by { FourDigitDecimal(2025, "2025"); }
    assert IntToDecimal(2023) == "2023" by { FourDigitDecimal(2023, "2023"); }
  }
}
