/**
 * The vacancy pipeline of scraper/scraper/pipelines.py: turning the salary
 * tokens a spider scraped from hh.ru or superjob.ru into a minimum, a
 * maximum and a currency. Thousands inside a number are separated by a
 * no-break space. Python's IndexError and ValueError (from `int`) are
 * modelled as outcomes: they abort the item.
 */
module Pipelines {
  import opened Wrappers
  import opened Text

  /** The no-break space, '\xa0'. */
  const Nbsp: char := '\U{00A0}'

  /** `(min, max, currency)`; None for what the vacancy does not state. */
  datatype Salary = Salary(min: Option<int>, max: Option<int>, cur: Option<string>)

  const NoSalary: Salary := Salary(None, None, None)

  datatype Outcome<T> = Ok(value: T) | IndexError | ValueError

  /** `int(token.replace('\xa0', ''))`. */
  function IntOfGrouped(token: string): (r: Outcome<int>)
    ensures r.Ok? <==> ParseInt(RemoveChar(token, Nbsp)).Some?
    ensures r.Ok? ==> Some(r.value) == ParseInt(RemoveChar(token, Nbsp))
    ensures !r.IndexError?
  {
    match ParseInt(RemoveChar(token, Nbsp))
    case Some(n) => Ok(n)
    case None => ValueError
  }

  /** `int(s)` on an already assembled string. */
  function IntOf(s: string): (r: Outcome<int>)
    ensures r.Ok? <==> ParseInt(s).Some?
    ensures r.Ok? ==> Some(r.value) == ParseInt(s)
    ensures !r.IndexError?
  {
    match ParseInt(s)
    case Some(n) => Ok(n)
    case None => ValueError
  }

  /**
   * `hh_process_salary`. Token lists look like
   * ['от ', '100\xa0000', ' до ', '150\xa0000', ' ', 'руб.'],
   * ['до ', '150\xa0000', ' ', 'руб.'] or ['от ', '100\xa0000', ' ', 'руб.'].
   * Subexpressions are evaluated left to right, so the first one that raises decides the error.
   */
  function HhProcessSalary(salary: seq<string>): (r: Outcome<Salary>)
    ensures r == Ok(NoSalary) <==> |salary| <= 1
    ensures |salary| == 2 ==> r == IndexError
    ensures r.Ok? && |salary| > 1 ==>
              var range := salary[2] == " до ";
              |salary| > (if range then 5 else 3) &&
              r.value.cur == Some(salary[if range then 5 else 3]) &&
              (r.value.min.Some? <==> range || salary[0] != "до ") &&
              (r.value.max.Some? <==> range || salary[0] == "до ")
    ensures r.ValueError? ==>
              |salary| >= 3 &&
              (IntOfGrouped(salary[1]).ValueError? ||
               (|salary| >= 4 && salary[2] == " до " && IntOfGrouped(salary[3]).ValueError?))
  {
    if |salary| <= 1 then Ok(NoSalary)
    else if |salary| < 3 then IndexError
    else if salary[2] == " до " then
      match IntOfGrouped(salary[1])
      case IndexError => IndexError
      case ValueError => ValueError
      case Ok(lo) =>
        if |salary| < 4 then IndexError
        else match IntOfGrouped(salary[3])
          case IndexError => IndexError
          case ValueError => ValueError
          case Ok(hi) =>
            if |salary| < 6 then IndexError else Ok(Salary(Some(lo), Some(hi), Some(salary[5])))
    else if salary[0] == "до " then
      match IntOfGrouped(salary[1])
      case IndexError => IndexError
      case ValueError => ValueError
      case Ok(hi) => if |salary| < 4 then IndexError else Ok(Salary(None, Some(hi), Some(salary[3])))
    else
      match IntOfGrouped(salary[1])
      case IndexError => IndexError
      case ValueError => ValueError
      case Ok(lo) => if |salary| < 4 then IndexError else Ok(Salary(Some(lo), None, Some(salary[3])))
  }

  /**
   * `sj_process_salary`. Token lists look like
   * ['100\xa0000', '\xa0', '—', '\xa0', '150\xa0000', '\xa0', 'руб.'],
   * ['от', '\xa0', '100\xa0000\xa0руб.'], ['до', '\xa0', '150\xa0000\xa0руб.'] or
   * ['120\xa0000', '\xa0', 'руб.'].
   */
  function SjProcessSalary(salary: seq<string>): (r: Outcome<Salary>)
    ensures r == Ok(NoSalary) <==> |salary| <= 1
    ensures r.Ok? && |salary| > 3 ==>
              |salary| >= 7 && r.value.min.Some? && r.value.max.Some? && r.value.cur == Some(salary[6])
    ensures r.Ok? && 1 < |salary| <= 3 && salary[0] == "от" ==> r.value.min.Some? && r.value.max == None
    ensures r.Ok? && 1 < |salary| <= 3 && salary[0] == "до" ==> r.value.min == None && r.value.max.Some?
    ensures r.ValueError? && |salary| > 3 ==>
              IntOfGrouped(salary[0]).ValueError? || (|salary| >= 5 && IntOfGrouped(salary[4]).ValueError?)
  {
    if |salary| <= 1 then Ok(NoSalary)
    else if |salary| > 3 then
      match IntOfGrouped(salary[0])
      case IndexError => IndexError
      case ValueError => ValueError
      case Ok(lo) =>
        if |salary| < 5 then IndexError
        else match IntOfGrouped(salary[4])
          case IndexError => IndexError
          case ValueError => ValueError
          case Ok(hi) => if |salary| < 7 then IndexError else Ok(Salary(Some(lo), Some(hi), Some(salary[6])))
    else if salary[0] == "от" || salary[0] == "до" then
      if |salary| < 3 then IndexError
      else
        var parts := Split(salary[2], Nbsp);
        if |parts| < 2 then IndexError
        else match IntOf(parts[0] + parts[1])
          case IndexError => IndexError
          case ValueError => ValueError
          case Ok(n) =>
            if |parts| < 3 then IndexError
            else if salary[0] == "от" then Ok(Salary(Some(n), None, Some(parts[2])))
            else Ok(Salary(None, Some(n), Some(parts[2])))
    else
      match IntOfGrouped(salary[0])
      case IndexError => IndexError
      case ValueError => ValueError
      case Ok(n) => if |salary| < 3 then IndexError else Ok(Salary(Some(n), Some(n), Some(salary[2])))
  }

  /** A token whose digits, once the no-break spaces are dropped, spell `n`. */
  predicate Spells(token: string, n: nat) {
    RemoveChar(token, Nbsp) == Decimal(n)
  }

  lemma SpelledParses(token: string, n: nat)
    requires Spells(token, n)
    ensures IntOfGrouped(token) == Ok(n)
  {
    ParseDecimal(n);
  }

  /** No salary information (an empty list, or 'з/п не указана' alone) gives three Nones on both sites. */
  lemma NoInformationNoSalary(salary: seq<string>)
    requires |salary| <= 1
    ensures HhProcessSalary(salary) == Ok(NoSalary) && SjProcessSalary(salary) == Ok(NoSalary)
  {
  }

  /** hh.ru, a range (the third token is ' до '): the second and fourth tokens are the bounds, the sixth the currency. */
  lemma HhRange(salary: seq<string>, lo: nat, hi: nat)
    requires |salary| >= 6 && salary[2] == " до "
    requires Spells(salary[1], lo) && Spells(salary[3], hi)
    ensures HhProcessSalary(salary) == Ok(Salary(Some(lo), Some(hi), Some(salary[5])))
  {
    SpelledParses(salary[1], lo);
    SpelledParses(salary[3], hi);
  }

  /**
   * hh.ru, one bound (the third token is not ' до '): an upper bound after
   * 'до ', otherwise a lower bound; the second token is the number, the fourth the currency.
   */
  lemma HhOneBound(salary: seq<string>, n: nat)
    requires |salary| >= 4 && salary[2] != " до "
    requires Spells(salary[1], n)
    ensures salary[0] == "до " ==> HhProcessSalary(salary) == Ok(Salary(None, Some(n), Some(salary[3])))
    ensures salary[0] != "до " ==> HhProcessSalary(salary) == Ok(Salary(Some(n), None, Some(salary[3])))
  {
    SpelledParses(salary[1], n);
  }

  /** superjob.ru, a range (more than three tokens): the first and fifth tokens are the bounds, the seventh the currency. */
  lemma SjRange(salary: seq<string>, lo: nat, hi: nat)
    requires |salary| >= 7
    requires Spells(salary[0], lo) && Spells(salary[4], hi)
    ensures SjProcessSalary(salary) == Ok(Salary(Some(lo), Some(hi), Some(salary[6])))
  {
    SpelledParses(salary[0], lo);
    SpelledParses(salary[4], hi);
  }

  /**
   * superjob.ru, one bound: the third token holds the number's two groups and
   * the currency, separated by no-break spaces; the groups are rejoined.
   */
  lemma SjOneBound(word: string, t1: string, thousands: string, units: string, cur: string, n: nat)
    requires word == "от" || word == "до"
    requires Nbsp !in thousands && Nbsp !in units && Nbsp !in cur
    requires thousands + units == Decimal(n)
    ensures var r := SjProcessSalary([word, t1, thousands + [Nbsp] + units + [Nbsp] + cur]);
            r == Ok(if word == "от" then Salary(Some(n), None, Some(cur)) else Salary(None, Some(n), Some(cur)))
  {
    var parts := [thousands, units, cur];
    assert Join(parts, Nbsp) == thousands + [Nbsp] + units + [Nbsp] + cur by {
      assert parts[1..] == [units, cur];
      assert parts[1..][1..] == [cur];
      assert Join([units, cur], Nbsp) == units + [Nbsp] + cur;
      assert Join(parts, Nbsp) == thousands + [Nbsp] + (units + [Nbsp] + cur);
    }
    SplitJoin(parts, Nbsp);
    ParseDecimal(n);
  }

  /** superjob.ru, a fixed salary: minimum and maximum coincide. */
  lemma SjFixedIsBothBounds(salary: seq<string>)
    requires |salary| == 2 || |salary| == 3
    requires salary[0] != "от" && salary[0] != "до"
    ensures SjProcessSalary(salary).Ok? ==> SjProcessSalary(salary).value.min == SjProcessSalary(salary).value.max
    ensures SjProcessSalary(salary).Ok? ==> SjProcessSalary(salary).value.min.Some?
  {
  }

  /** The spider that scrapes hh.ru; every other spider is taken to scrape superjob.ru. */
  const HhSpider: string := "hhru"

  /** A scraped vacancy as the pipeline sees it. */
  class VacancyItem {
    var salary: seq<string>
    var min: Option<int>
    var max: Option<int>
    var cur: Option<string>

    constructor (salary: seq<string>)
      ensures this.salary == salary && min == None && max == None && cur == None
    {
      this.salary := salary;
      min := None;
      max := None;
      cur := None;
    }
  }

  /**
   * `process_item`: parse the salary with the parser of the site the spider
   * scraped and store the three parts; an error leaves the item untouched.
   */
  method ProcessItem(item: VacancyItem, spiderName: string) returns (r: Outcome<Salary>)
    modifies item
    ensures r == (if spiderName == HhSpider then HhProcessSalary(old(item.salary)) else SjProcessSalary(old(item.salary)))
    ensures item.salary == old(item.salary)
    ensures r.Ok? ==> item.min == r.value.min && item.max == r.value.max && item.cur == r.value.cur
    ensures !r.Ok? ==> item.min == old(item.min) && item.max == old(item.max) && item.cur == old(item.cur)
  {
    if spiderName == HhSpider {
      r := HhProcessSalary(item.salary);
    } else {
      r := SjProcessSalary(item.salary);
    }
    if r.Ok? {
      item.min, item.max, item.cur := r.value.min, r.value.max, r.value.cur;
    }
  }
}
