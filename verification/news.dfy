/**
 The news screen (src/screens/News.tsx): six fixed news items, a row of
 category chips headed by the sentinel "Todos", and the selection they
 drive.
 */
module News {
  import opened Text
  import opened Seqs

  /** A news card; the image is left out. */
  datatype NewsItem = NewsItem(
    id: string,
    title: string,
    category: string,
    date: string,
    excerpt: string,
    readTime: string)

  /** The chip that selects every item. */
  const AllCategory: string := "Todos"

  const NewsData: seq<NewsItem> := [
    NewsItem("1", "Como Adaptar um Pet Recém-Chegado em Casa", "Dicas de Cuidado", "15 Nov 2024",
             "Confira dicas essenciais para receber seu novo amigo de quatro patas...", "5 min de leitura"),
    NewsItem("2", "História de Sucesso: Thor Encontrou um Lar", "Adoção Bem-Sucedida", "12 Nov 2024",
             "Conheça a emocionante história de Thor, que após 1 ano no abrigo, encontrou uma família...", "3 min de leitura"),
    NewsItem("3", "Feira de Adoção Especial - Natal 2024", "Eventos do Abrigo", "10 Nov 2024",
             "Participe da nossa feira de adoção natalina e dê um lar para um pet neste fim de ano...", "2 min de leitura"),
    NewsItem("4", "Campanha: Castração Gratuita", "Campanhas Especiais", "8 Nov 2024",
             "Apoie nossa campanha de castração gratuita para pets de comunidades carentes...", "4 min de leitura"),
    NewsItem("5", "Alimentação Saudável para Seu Pet", "Dicas de Cuidado", "5 Nov 2024",
             "Aprenda a escolher a melhor ração e manter uma alimentação balanceada...", "6 min de leitura"),
    NewsItem("6", "Luna: De Abandonada a Amada", "Adoção Bem-Sucedida", "3 Nov 2024",
             "A transformação incrível de Luna, que superou o abandono e encontrou amor...", "4 min de leitura")
  ]

  const Categories: seq<string> :=
    [AllCategory, "Dicas de Cuidado", "Adoção Bem-Sucedida", "Eventos do Abrigo", "Campanhas Especiais"]

  /** `filteredNews`: everything under the sentinel, otherwise the items of
      exactly that category, in their original order. */
  function Filtered(selected: string, data: seq<NewsItem>): (r: seq<NewsItem>)
    ensures selected == AllCategory ==> r == data
    ensures selected != AllCategory ==> forall i :: 0 <= i < |r| ==> r[i].category == selected
  {
    if selected == AllCategory then data
    else Filter((item: NewsItem) => item.category == selected, data)
  }

  /** Any other chip keeps exactly the items of its category, in their
      original order. */
  lemma FilteredIsCategorySubsequence(selected: string, data: seq<NewsItem>, x: NewsItem)
    requires selected != AllCategory
    ensures IsSubsequence(Filtered(selected, data), data)
    ensures x in Filtered(selected, data) <==> x in data && x.category == selected
  {
    FilterIsSubsequence((item: NewsItem) => item.category == selected, data);
    FilterMembership((item: NewsItem) => item.category == selected, data, x);
  }

  /** A category no item carries selects nothing. */
  lemma UnknownCategoryEmpty(selected: string, data: seq<NewsItem>)
    requires selected != AllCategory
    requires forall i :: 0 <= i < |data| ==> data[i].category != selected
    ensures Filtered(selected, data) == []
  {
    FilterNone((item: NewsItem) => item.category == selected, data);
  }

  /** Every item's category has a chip. */
  lemma CategoriesCoverData()
    ensures forall i :: 0 <= i < |NewsData| ==> NewsData[i].category in Categories
  {
  }

  /** The selection each chip makes from six items laid out by category as
      the shipped data is. */
  lemma {:induction false} SelectionsByLayout(d: seq<NewsItem>)
    requires |d| == 6
    requires d[0].category == "Dicas de Cuidado" && d[4].category == "Dicas de Cuidado"
    requires d[1].category == "Adoção Bem-Sucedida" && d[5].category == "Adoção Bem-Sucedida"
    requires d[2].category == "Eventos do Abrigo"
    requires d[3].category == "Campanhas Especiais"
    ensures Filtered("Dicas de Cuidado", d) == [d[0], d[4]]
    ensures Filtered("Adoção Bem-Sucedida", d) == [d[1], d[5]]
    ensures Filtered("Eventos do Abrigo", d) == [d[2]]
    ensures Filtered("Campanhas Especiais", d) == [d[3]]
  {
    FilterSix((item: NewsItem) => item.category == "Dicas de Cuidado", d);
    FilterSix((item: NewsItem) => item.category == "Adoção Bem-Sucedida", d);
    FilterSix((item: NewsItem) => item.category == "Eventos do Abrigo", d);
    FilterSix((item: NewsItem) => item.category == "Campanhas Especiais", d);
  }

  /** On the shipped data the sentinel shows all six items, and a
      category no item carries shows none. */
  lemma ExampleAllAndUnknown()
    ensures |Filtered(AllCategory, NewsData)| == 6
    ensures Filtered("Notícias Antigas", NewsData) == []
  {
    UnknownCategoryEmpty("Notícias Antigas", NewsData);
  }

  /** On the shipped data the care-tips chip shows items 1 and 5. */
  lemma ExampleCareTips()
    ensures Filtered("Dicas de Cuidado", NewsData) == [NewsData[0], NewsData[4]]
  {
    SelectionsByLayout(NewsData);
  }

  /** On the shipped data the adoption-stories chip shows items 2 and 6. */
  lemma ExampleAdoptionStories()
    ensures Filtered("Adoção Bem-Sucedida", NewsData) == [NewsData[1], NewsData[5]]
  {
    SelectionsByLayout(NewsData);
  }

  /** On the shipped data the events chip shows item 3 alone and the
      campaigns chip item 4 alone. */
  lemma ExampleEventsAndCampaigns()
    ensures Filtered("Eventos do Abrigo", NewsData) == [NewsData[2]]
    ensures Filtered("Campanhas Especiais", NewsData) == [NewsData[3]]
  {
    SelectionsByLayout(NewsData);
  }

  /** The heading above the list. */
  function SectionTitle(selected: string): (t: string)
    ensures selected == AllCategory ==> t == "Todas as Notícias"
    ensures selected != AllCategory ==> t == selected
  {
    if selected == AllCategory then "Todas as Notícias" else selected
  }

  /** The count beside the heading: "1 item", otherwise "n itens". */
  function CountLabel(n: nat): (t: string)
    ensures t == NatToString(n) + " item" <==> n == 1
    ensures n != 1 ==> t == NatToString(n) + " itens"
  {
    CountPhraseSingularIff(n, "item", "itens");
    CountPhrase(n, "item", "itens")
  }
}
