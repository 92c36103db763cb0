/**
  The built-in glossary: a fixed table of terms and definitions, searched
  case-insensitively, and a random pick of entries for demonstration.
  Results are lists of entries in the order the result object would list
  its keys.
*/
module Glossary {
  import opened Base
  import opened Strings

  datatype Entry = Entry(term: string, definition: string)

  /** The glossary table, in its source order. */
  const Table: seq<Entry> := Technology + Business + General + ModernTech

  /** The technology terms. */
  const Technology: seq<Entry> := [
    Entry("API", "Application Programming Interface - a set of protocols and tools for building software applications that specifies how software components should interact."),
    Entry("JavaScript", "A high-level, interpreted programming language that is widely used for web development to create interactive and dynamic web pages."),
    Entry("React", "A JavaScript library for building user interfaces, particularly web applications, developed by Facebook."),
    Entry("HTML", "HyperText Markup Language - the standard markup language used to create web pages and web applications."),
    Entry("CSS", "Cascading Style Sheets - a style sheet language used for describing the presentation of a document written in HTML or XML."),
    Entry("JSON", "JavaScript Object Notation - a lightweight data-interchange format that is easy for humans to read and write."),
    Entry("HTTP", "HyperText Transfer Protocol - the foundation of data communication for the World Wide Web."),
    Entry("HTTPS", "HyperText Transfer Protocol Secure - an extension of HTTP that uses encryption for secure communication."),
    Entry("URL", "Uniform Resource Locator - a reference to a web resource that specifies its location on a computer network."),
    Entry("DOM", "Document Object Model - a programming interface for HTML and XML documents that represents the page structure."),
    Entry("AJAX", "Asynchronous JavaScript and XML - a technique for creating interactive web applications by exchanging data with a server asynchronously."),
    Entry("SQL", "Structured Query Language - a domain-specific language used in programming for managing data in relational databases."),
    Entry("NoSQL", "A database that provides a mechanism for storage and retrieval of data that is modeled differently than relational databases."),
    Entry("Git", "A distributed version control system for tracking changes in source code during software development."),
    Entry("GitHub", "A web-based platform that uses Git for version control and provides hosting for software development projects."),
    Entry("Node.js", "A JavaScript runtime built on Chrome's V8 JavaScript engine that allows JavaScript to be run on the server side."),
    Entry("npm", "Node Package Manager - the default package manager for Node.js that helps manage JavaScript packages and dependencies."),
    Entry("Webpack", "A static module bundler for modern JavaScript applications that bundles JavaScript files for usage in a browser."),
    Entry("Babel", "A JavaScript compiler that transforms modern JavaScript code into backwards-compatible versions for older browsers."),
    Entry("TypeScript", "A programming language developed by Microsoft that builds on JavaScript by adding static type definitions.")]

  /** The business terms. */
  const Business: seq<Entry> := [
    Entry("ROI", "Return on Investment - a performance measure used to evaluate the efficiency of an investment or compare efficiency of different investments."),
    Entry("KPI", "Key Performance Indicator - a measurable value that demonstrates how effectively a company is achieving key business objectives."),
    Entry("SaaS", "Software as a Service - a software distribution model where applications are hosted by a service provider and made available over the internet."),
    Entry("B2B", "Business to Business - a form of transaction between businesses, such as between a manufacturer and wholesaler."),
    Entry("B2C", "Business to Consumer - the process of selling products and services directly between a business and consumers."),
    Entry("CRM", "Customer Relationship Management - a technology for managing all your company's relationships and interactions with customers."),
    Entry("ERP", "Enterprise Resource Planning - business process management software that allows an organization to use integrated applications."),
    Entry("MVP", "Minimum Viable Product - a development technique where a new product is developed with sufficient features to satisfy early adopters."),
    Entry("Agile", "A project management and software development methodology that emphasizes flexibility, collaboration, and customer satisfaction."),
    Entry("Scrum", "An agile framework for managing product development that emphasizes teamwork, accountability, and iterative progress."),
    Entry("Kanban", "A visual system for managing work as it moves through a process, emphasizing continuous delivery without overburdening the team.")]

  /** The general terms. */
  const General: seq<Entry> := [
    Entry("Algorithm", "A step-by-step procedure or formula for solving a problem or completing a task, especially in computing and mathematics."),
    Entry("Database", "An organized collection of structured information, or data, typically stored electronically in a computer system."),
    Entry("Server", "A computer or system that provides resources, data, services, or programs to other computers over a network."),
    Entry("Client", "A computer or software application that accesses a service made available by a server in a client-server architecture."),
    Entry("Framework", "A platform for developing software applications that provides a foundation with pre-written code and tools."),
    Entry("Library", "A collection of pre-compiled routines that a program can use to perform common tasks or operations."),
    Entry("IDE", "Integrated Development Environment - a software application that provides comprehensive facilities for software development."),
    Entry("Debugging", "The process of finding and resolving defects or problems within a computer program that prevent correct operation."),
    Entry("Deployment", "The process of installing, configuring, and enabling a specific application or set of applications on a server or system."),
    Entry("Scalability", "The capability of a system to handle a growing amount of work by adding resources to the system."),
    Entry("Performance", "A measure of how well a system or application operates in terms of speed, efficiency, and resource usage."),
    Entry("Security", "The practice of protecting systems, networks, and programs from digital attacks and unauthorized access."),
    Entry("Encryption", "The process of converting information or data into a code to prevent unauthorized access."),
    Entry("Authentication", "The process of verifying the identity of a user, device, or system before granting access to resources."),
    Entry("Authorization", "The process of giving someone permission to do or have something after they have been authenticated.")]

  /** The modern technology terms. */
  const ModernTech: seq<Entry> := [
    Entry("Cloud", "A network of remote servers hosted on the internet to store, manage, and process data rather than a local server."),
    Entry("AI", "Artificial Intelligence - the simulation of human intelligence in machines programmed to think and learn like humans."),
    Entry("ML", "Machine Learning - a type of artificial intelligence that enables computers to learn and improve from experience automatically."),
    Entry("IoT", "Internet of Things - the network of physical objects embedded with sensors and software to connect and exchange data."),
    Entry("Blockchain", "A distributed ledger technology that maintains a continuously growing list of records linked and secured using cryptography."),
    Entry("Microservices", "An architectural approach where applications are built as a collection of loosely coupled, independently deployable services."),
    Entry("DevOps", "A set of practices that combines software development and IT operations to shorten development lifecycle and provide continuous delivery."),
    Entry("Container", "A lightweight, standalone package that includes everything needed to run an application: code, runtime, tools, and libraries."),
    Entry("Docker", "A platform that uses containerization technology to package applications and their dependencies into portable containers."),
    Entry("Kubernetes", "An open-source container orchestration platform for automating deployment, scaling, and management of containerized applications.")]

  predicate UniqueTerms(entries: seq<Entry>) {
    forall i, j :: 0 <= i < j < |entries| ==> entries[i].term != entries[j].term
  }

  /** The filter of `searchTerms`: the lower-cased query occurs in the lower-cased term or definition. */
  function MatchesQuery(lowercaseQuery: string): Entry -> bool {
    (e: Entry) => Includes(ToLower(e.term), lowercaseQuery) || Includes(ToLower(e.definition), lowercaseQuery)
  }

  /** The entries of `table` whose term or definition contains the query, ignoring case, in table order. */
  function SearchIn(table: seq<Entry>, query: string): seq<Entry> {
    Filter(table, MatchesQuery(ToLower(query)))
  }

  /** `searchTerms(query)`. */
  function SearchTerms(query: string): seq<Entry> {
    SearchIn(Table, query)
  }

  /**
    Every result is an entry of the table (its definition is the table's),
    results keep the table's order, and an entry of the table is in the
    result exactly when its term or definition contains the query.
  */
  lemma SearchExact(table: seq<Entry>, query: string)
    ensures IsSubsequence(SearchIn(table, query), table)
    ensures forall i :: 0 <= i < |SearchIn(table, query)| ==> SearchIn(table, query)[i] in table
    ensures forall i :: 0 <= i < |table| ==>
              (table[i] in SearchIn(table, query) <==> MatchesQuery(ToLower(query))(table[i]))
  {
    var p := MatchesQuery(ToLower(query));
    FilterIsSubsequence(table, p);
    FilterMembers(table, p);
  }

  /** Two queries that agree once lower-cased give the same result. */
  lemma SearchIgnoresCase(q1: string, q2: string)
    requires ToLower(q1) == ToLower(q2)
    ensures SearchTerms(q1) == SearchTerms(q2)
  {
  }

  /** The empty query returns the whole table. */
  lemma EmptyQueryReturnsAll(table: seq<Entry>)
    ensures SearchIn(table, "") == table
  {
    var p := MatchesQuery(ToLower(""));
    forall i | 0 <= i < |table| ensures p(table[i]) {
      IncludesEmpty(ToLower(table[i].term));
    }
    FilterKeepsAll(table, p);
  }

  /** `order` lists each index below `n` exactly once: the outcome of sorting with a random comparator. */
  predicate IsOrderOf(order: seq<int>, n: int) {
    && |order| == n
    && (forall i :: 0 <= i < |order| ==> 0 <= order[i] < n)
    && (forall i, j :: 0 <= i < j < |order| ==> order[i] != order[j])
  }

  /** The glossary entries in the given order. */
  function Reordered(order: seq<int>): seq<Entry>
    requires IsOrderOf(order, |Table|)
  {
    seq(|order|, i requires 0 <= i < |order| => Table[order[i]])
  }

  /**
    `getRandomTerms(count)` given the order the random sort produced: the
    first `count` entries of that order.
  */
  function GetRandomTerms(count: int, order: seq<int>): seq<Entry>
    requires IsOrderOf(order, |Table|)
  {
    Slice(Reordered(order), 0, count)
  }

  /** `getRandomTerms` returns glossary entries, no term twice, and at most `count` of them. */
  lemma RandomTermsAreDistinct(count: int, order: seq<int>)
    requires IsOrderOf(order, |Table|)
    ensures var r := GetRandomTerms(count, order);
            && r == Reordered(order)[..|r|]
            && (count >= 0 ==> |r| <= count)
            && (forall i :: 0 <= i < |r| ==> r[i] in Table)
            && UniqueTerms(r)
  {
    TermsAreUnique();
    var s := Reordered(order);
    forall i, j | 0 <= i < j < |s| ensures s[i].term != s[j].term {
      if order[i] < order[j] {
        assert Table[order[i]].term != Table[order[j]].term;
      } else {
        assert Table[order[j]].term != Table[order[i]].term;
      }
    }
  }

  /** `searchTerms` on the glossary: exact, order-keeping, and everything for the empty query. */
  lemma SearchTermsExact(query: string)
    ensures IsSubsequence(SearchTerms(query), Table)
    ensures forall i :: 0 <= i < |Table| ==>
              (Table[i] in SearchTerms(query) <==> MatchesQuery(ToLower(query))(Table[i]))
    ensures SearchTerms("") == Table
  {
    SearchExact(Table, query);
    EmptyQueryReturnsAll(Table);
  }

  // ---------------------------------------------------------------------
  // No term twice: the keys of the source's object literal are distinct

  /**
    Where a term stands in the table, found from its spelling; a string that
    is no term gives -1. Agreeing with every entry's index, it shows that no
    two entries share a term.
  */
  function TermPosition(term: string): int {
    match term
    case "API" => 0
    case "JavaScript" => 1
    case "React" => 2
    case "HTML" => 3
    case "CSS" => 4
    case "JSON" => 5
    case "HTTP" => 6
    case "HTTPS" => 7
    case "URL" => 8
    case "DOM" => 9
    case "AJAX" => 10
    case "SQL" => 11
    case "NoSQL" => 12
    case "Git" => 13
    case "GitHub" => 14
    case "Node.js" => 15
    case "npm" => 16
    case "Webpack" => 17
    case "Babel" => 18
    case "TypeScript" => 19
    case "ROI" => 20
    case "KPI" => 21
    case "SaaS" => 22
    case "B2B" => 23
    case "B2C" => 24
    case "CRM" => 25
    case "ERP" => 26
    case "MVP" => 27
    case "Agile" => 28
    case "Scrum" => 29
    case "Kanban" => 30
    case "Algorithm" => 31
    case "Database" => 32
    case "Server" => 33
    case "Client" => 34
    case "Framework" => 35
    case "Library" => 36
    case "IDE" => 37
    case "Debugging" => 38
    case "Deployment" => 39
    case "Scalability" => 40
    case "Performance" => 41
    case "Security" => 42
    case "Encryption" => 43
    case "Authentication" => 44
    case "Authorization" => 45
    case "Cloud" => 46
    case "AI" => 47
    case "ML" => 48
    case "IoT" => 49
    case "Blockchain" => 50
    case "Microservices" => 51
    case "DevOps" => 52
    case "Container" => 53
    case "Docker" => 54
    case "Kubernetes" => 55
    case _ => -1
  }

  /** Each technology term stands at its own index. */
  lemma TechnologyPositions()
    ensures forall i :: 0 <= i < |Technology| ==> TermPosition(Technology[i].term) == i
  {
    // Splitting on the index lets each case read its entry.
    forall i | 0 <= i < |Technology| ensures TermPosition(Technology[i].term) == i {
      assert i == 0 || i == 1 || i == 2 || i == 3 || i == 4 || i == 5 || i == 6 ||
             i == 7 || i == 8 || i == 9 || i == 10 || i == 11 || i == 12 || i == 13 ||
             i == 14 || i == 15 || i == 16 || i == 17 || i == 18 || i == 19;
    }
  }

  /** Each business term stands at its own index, after the 20 technology terms. */
  lemma BusinessPositions()
    ensures forall i :: 0 <= i < |Business| ==> TermPosition(Business[i].term) == 20 + i
  {
    forall i | 0 <= i < |Business| ensures TermPosition(Business[i].term) == 20 + i {
      assert i == 0 || i == 1 || i == 2 || i == 3 || i == 4 || i == 5 || i == 6 ||
             i == 7 || i == 8 || i == 9 || i == 10;
    }
  }

  /** Each general term stands at its own index, after the 31 terms before it. */
  lemma GeneralPositions()
    ensures forall i :: 0 <= i < |General| ==> TermPosition(General[i].term) == 31 + i
  {
    forall i | 0 <= i < |General| ensures TermPosition(General[i].term) == 31 + i {
      assert i == 0 || i == 1 || i == 2 || i == 3 || i == 4 || i == 5 || i == 6 ||
             i == 7 || i == 8 || i == 9 || i == 10 || i == 11 || i == 12 || i == 13 ||
             i == 14;
    }
  }

  /** Each modern technology term stands at its own index, after the 46 terms before it. */
  lemma ModernTechPositions()
    ensures forall i :: 0 <= i < |ModernTech| ==> TermPosition(ModernTech[i].term) == 46 + i
  {
    forall i | 0 <= i < |ModernTech| ensures TermPosition(ModernTech[i].term) == 46 + i {
      assert i == 0 || i == 1 || i == 2 || i == 3 || i == 4 || i == 5 || i == 6 ||
             i == 7 || i == 8 || i == 9;
    }
  }

  /** The glossary table lists every term once. */
  lemma TermsAreUnique()
    ensures UniqueTerms(Table)
  {
    TechnologyPositions();
    BusinessPositions();
    GeneralPositions();
    ModernTechPositions();
    assert forall i :: 0 <= i < |Table| ==> TermPosition(Table[i].term) == i;
  }
}
